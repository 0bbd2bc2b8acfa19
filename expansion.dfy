/**
 * Sector expansion and future fulfilment (`create_star_sector`,
 * `fill_star_sector`, `generate_star_sector`, `fulfill_star_sector_future`)
 * as functions from the old tables to the new ones.
 */
module Expansion {
  import opened Wrappers
  import opened SchemaTypes
  import opened Models
  import opened StarLinks
  import opened LinkGeneration
  import opened GalaxyTables

  /** Children per subdivided sector (`sub_amount`). */
  const SUB_AMOUNT: nat := 10
  /** Below this many stars per child, a sector gets star systems instead of futures. */
  const STAR_THRESHOLD: real := 10.0
  /** Target links per star (`stars * 4f32`). */
  const LINKS_PER_STAR: real := 4.0
  /** The name every generated system gets. */
  const STAR_NAME: string := "StarName"
  /** `(10 as f32).cbrt()`, as the real closest to the f32 result. */
  const CUBE_ROOT_OF_TEN: real := 2.1544347

  /** `sub_stars`: the stars each of the children would get. */
  function SubStars(stars: real): (s: real)
    ensures SUB_AMOUNT as real * s == stars
  {
    stars / SUB_AMOUNT as real
  }

  /** The branch `sub_stars < 10.0`: the sector is filled with star systems. */
  predicate IsLeafSector(stars: real)
  {
    SubStars(stars) < STAR_THRESHOLD
  }

  /**
   * `stars.round() as i32` used as the end of `0..stars_amount`: rounds half
   * away from zero, and a negative count gives an empty range.
   */
  function StarsAmount(stars: real): (n: nat)
    ensures stars >= 0.0 ==> n as real <= stars + 0.5 < n as real + 1.0
    ensures stars < 0.0 ==> n == 0
  {
    if stars < 0.0 then 0 else (stars + 0.5).Floor
  }

  /** `(stars * 4f32) as usize`: truncation toward zero, negative values saturate to 0. */
  function LinkTarget(stars: real): (n: nat)
    ensures stars > 0.0 ==> n as real <= stars * LINKS_PER_STAR < n as real + 1.0
    ensures stars <= 0.0 ==> n == 0
  {
    if stars <= 0.0 then 0 else (stars * LINKS_PER_STAR).Floor
  }

  /** `rad / (sub_amount as f32).cbrt()`. */
  function SubRadius(radius: real): (r: real)
    ensures r * CUBE_ROOT_OF_TEN == radius
  {
    radius / CUBE_ROOT_OF_TEN
  }

  /** The ids `first`, ..., `first + n - 1` a batch insert of `n` objects receives. */
  function IdRange(first: Id, n: nat): set<Id>
  {
    // The explicit bounds make the set finite; `Within` names the membership condition for triggers.
    set i: Id | first <= i < first + n && Within(i, first, n)
  }

  predicate Within(i: Id, first: Id, n: nat)
  {
    first <= i < first + n
  }

  lemma {:induction false} IdRangeSize(first: Id, n: nat)
    ensures |IdRange(first, n)| == n
  {
    if n > 0 {
      IdRangeSize(first, n - 1);
      assert IdRange(first, n) == IdRange(first, n - 1) + {first + n - 1};
    }
  }

  // ---------------------------------------------------------------------------
  // The steps

  /** `create_star_sector`: a Sector registry row and a sector row under `parent`. */
  function CreateSpec(t: Tables, parent: Option<Id>): Outcome<StarSector>
  {
    if parent.Some? && parent.value !in t.sectors then Outcome(t, Err(ForeignKeyViolation))
    else Outcome(t.(objects := t.objects[t.nextId := Sector], sectors := t.sectors[t.nextId := parent],
                    nextId := t.nextId + 1),
                 Ok(StarSector(t.nextId, parent)))
  }

  /** Batch insert of `n` System objects and their systems in sector `sectorId`. */
  function InsertSystems(t: Tables, sectorId: Id, n: nat): Tables
  {
    t.(objects := t.objects + map i | i in IdRange(t.nextId, n) :: System,
       systems := t.systems + map i | i in IdRange(t.nextId, n) :: SystemRow(STAR_NAME, sectorId),
       nextId := t.nextId + n)
  }

  /** Batch insert of `SUB_AMOUNT` SectorFuture objects and their futures under `sectorId`. */
  function InsertFutures(t: Tables, sectorId: Id, stars: real, radius: real): Tables
  {
    t.(objects := t.objects + map i | i in IdRange(t.nextId, SUB_AMOUNT) :: SectorFuture,
       futures := t.futures + map i | i in IdRange(t.nextId, SUB_AMOUNT) ::
                    FutureRow(sectorId, SubRadius(radius), SubStars(stars)),
       nextId := t.nextId + SUB_AMOUNT)
  }

  /** Batch insert of links; they receive consecutive link ids. */
  function InsertLinks(t: Tables, ls: seq<NewStarLink>): Tables
  {
    t.(links := t.links + map k | k in IdRange(t.nextLinkId, |ls|) :: ls[k - t.nextLinkId],
       nextLinkId := t.nextLinkId + |ls|)
  }

  /** Handles of `n` systems inserted from id `first` on, in insertion order. */
  function SystemHandles(first: Id, n: nat, sectorId: Id): seq<GalaxyObject>
  {
    seq(n, i requires 0 <= i < n => FromSystem(StarSystem(first + i, STAR_NAME, sectorId)))
  }

  /** Handles of the futures inserted from id `first` on, in insertion order. */
  function FutureHandles(first: Id, sectorId: Id, stars: real, radius: real): seq<GalaxyObject>
  {
    seq(SUB_AMOUNT, i requires 0 <= i < SUB_AMOUNT =>
      FromFuture(StarSectorFuture(first + i, sectorId, SubRadius(radius), SubStars(stars))))
  }

  /** The handles of the children `fill_star_sector` inserts, systems or futures by the star count. */
  function ChildHandles(t: Tables, sectorId: Id, stars: real, radius: real): seq<GalaxyObject>
  {
    if IsLeafSector(stars) then SystemHandles(t.nextId, StarsAmount(stars), sectorId)
    else FutureHandles(t.nextId, sectorId, stars, radius)
  }

  /** How many children `fill_star_sector` inserts. */
  function ChildCount(stars: real): nat
  {
    if IsLeafSector(stars) then StarsAmount(stars) else SUB_AMOUNT
  }

  /** The sibling slice `fill_star_sector` hands to the link generator. */
  function Siblings(t: Tables, sectorId: Id, stars: real, radius: real, weights: seq<nat>): seq<Weighted>
  {
    Zip(ChildHandles(t, sectorId, stars, radius), weights)
  }

  /** The links the generator returns for the new children; only the system branch asks for unique links. */
  function FillLinks(t: Tables, sectorId: Id, stars: real, radius: real, weights: seq<nat>, gen: Generator)
    : seq<NewStarLink>
  {
    gen(Siblings(t, sectorId, stars, radius, weights), LinkTarget(stars), IsLeafSector(stars))
  }

  /** The first half of `fill_star_sector`: systems or futures, by the star count. */
  function Children(t: Tables, sectorId: Id, stars: real, radius: real): Tables
  {
    if IsLeafSector(stars) then InsertSystems(t, sectorId, StarsAmount(stars))
    else InsertFutures(t, sectorId, stars, radius)
  }

  /** `fill_star_sector`: children first, then the links among them. */
  function FillSpec(t: Tables, sectorId: Id, stars: real, radius: real, weights: seq<nat>, gen: Generator): Tables
  {
    InsertLinks(Children(t, sectorId, stars, radius), FillLinks(t, sectorId, stars, radius, weights, gen))
  }

  /** `generate_star_sector`: create, then fill; a failed create changes nothing. */
  function GenerateSpec(t: Tables, stars: real, radius: real, parent: Option<Id>, weights: seq<nat>, gen: Generator)
    : Outcome<StarSector>
  {
    var created := CreateSpec(t, parent);
    if created.result.Err? then created
    else Outcome(FillSpec(created.state, created.result.value.id, stars, radius, weights, gen), created.result)
  }

  /**
   * `fulfill_star_sector_future`: the future's links and row go, its registry
   * row turns into a Sector, a sector row with the future's id and parent is
   * inserted and filled with the future's stars and radius.
   */
  function FulfilSpec(t: Tables, futureId: Id, weights: seq<nat>, gen: Generator): Outcome<StarSector>
  {
    if futureId !in t.futures then Outcome(t, Err(NotFound))
    else if futureId !in t.objects then Outcome(t, Err(NotFound))
    else
      var future := t.futures[futureId];
      Outcome(FillSpec(Convert(t, futureId), futureId, future.stars, future.radius, weights, gen),
              Ok(StarSector(futureId, Some(future.parentId))))
  }

  /**
   * The part of fulfilment before the fill: the future's links and row are
   * deleted, its registry kind becomes Sector and a sector row with its id
   * and parent is inserted.
   */
  function Convert(t: Tables, futureId: Id): Tables
    requires futureId in t.futures
  {
    t.(links := LinksNotTouching(t.links, {futureId}), futures := t.futures - {futureId},
       objects := t.objects[futureId := Sector],
       sectors := t.sectors[futureId := Some(t.futures[futureId].parentId)])
  }

  // ---------------------------------------------------------------------------
  // Invariant preservation

  lemma CreateValid(t: Tables, parent: Option<Id>)
    requires Valid(t)
    ensures Valid(CreateSpec(t, parent).state)
    ensures CreateSpec(t, parent).result.Ok? <==> parent.None? || parent.value in t.sectors
    ensures CreateSpec(t, parent).result.Err? ==> CreateSpec(t, parent).state == t
    ensures CreateSpec(t, parent).result.Ok? ==>
      var s := CreateSpec(t, parent).result.value;
      s.id !in t.objects && s.parentId == parent && CreateSpec(t, parent).state.sectors[s.id] == parent
  {
    var a := CreateSpec(t, parent).state;
    if CreateSpec(t, parent).result.Ok? {
      forall id | id in t.objects
        ensures id in a.objects && a.objects[id] == t.objects[id] && Parent(a, id) == Parent(t, id)
      {
      }
      GrowLinksValid(t, a);
    }
  }

  lemma InsertSystemsValid(t: Tables, sectorId: Id, n: nat)
    requires Valid(t) && sectorId in t.sectors
    ensures Valid(InsertSystems(t, sectorId, n))
  {
    var a := InsertSystems(t, sectorId, n);
    InsertSystemsRows(t, sectorId, n);
    forall id | id in t.objects
      ensures id in a.objects && a.objects[id] == t.objects[id] && Parent(a, id) == Parent(t, id)
    {
    }
    GrowLinksValid(t, a);
  }

  lemma InsertSystemsRows(t: Tables, sectorId: Id, n: nat)
    requires Valid(t) && sectorId in t.sectors
    ensures KindsMatch(InsertSystems(t, sectorId, n)) && ParentsPrecede(InsertSystems(t, sectorId, n))
  {
  }

  lemma InsertFuturesValid(t: Tables, sectorId: Id, stars: real, radius: real)
    requires Valid(t) && sectorId in t.sectors
    ensures Valid(InsertFutures(t, sectorId, stars, radius))
  {
    var a := InsertFutures(t, sectorId, stars, radius);
    InsertFuturesRows(t, sectorId, stars, radius);
    forall id | id in t.objects
      ensures id in a.objects && a.objects[id] == t.objects[id] && Parent(a, id) == Parent(t, id)
    {
    }
    GrowLinksValid(t, a);
  }

  lemma InsertFuturesRows(t: Tables, sectorId: Id, stars: real, radius: real)
    requires Valid(t) && sectorId in t.sectors
    ensures KindsMatch(InsertFutures(t, sectorId, stars, radius))
    ensures ParentsPrecede(InsertFutures(t, sectorId, stars, radius))
  {
  }

  lemma InsertLinksValid(t: Tables, ls: seq<NewStarLink>)
    requires Valid(t)
    requires forall i | 0 <= i < |ls| :: LinkValid(t, ls[i])
    ensures Valid(InsertLinks(t, ls))
  {
    var a := InsertLinks(t, ls);
    InsertLinksEffect(t, ls);
    forall k | k in a.links
      ensures LinkValid(a, a.links[k])
    {
      var l := a.links[k];
      if k in t.links {
        assert LinkValid(t, l);
      } else {
        var i :| 0 <= i < |ls| && ls[i] == l;
        assert LinkValid(t, ls[i]);
      }
      LinkValidSameRows(t, a, l);
    }
  }

  /**
   * Whatever the generator returns links two of the new children, which are
   * registered with the kind the link records and share the filled sector.
   */
  lemma FillLinksJoinChildren(t: Tables, sectorId: Id, stars: real, radius: real, weights: seq<nat>, gen: Generator)
    requires Valid(t) && KeepsLinksAmongSiblings(gen)
    ensures var children := Children(t, sectorId, stars, radius);
      forall l | l in FillLinks(t, sectorId, stars, radius, weights, gen) ::
        && l.aId in IdRange(t.nextId, ChildCount(stars))
        && l.bId in IdRange(t.nextId, ChildCount(stars))
        && LinkValid(children, l) && Parent(children, l.aId) == Some(sectorId)
  {
    var nodes := Siblings(t, sectorId, stars, radius, weights);
    var handles := ChildHandles(t, sectorId, stars, radius);
    var children := Children(t, sectorId, stars, radius);
    assert Items(nodes) <= set g | g in handles;
    forall l | l in FillLinks(t, sectorId, stars, radius, weights, gen)
      ensures && l.aId in IdRange(t.nextId, ChildCount(stars))
              && l.bId in IdRange(t.nextId, ChildCount(stars))
              && LinkValid(children, l) && Parent(children, l.aId) == Some(sectorId)
    {
      GeneratedSides(gen, nodes, LinkTarget(stars), IsLeafSector(stars), l);
      ChildHandleRegistered(t, sectorId, stars, radius, l.SideA());
      ChildHandleRegistered(t, sectorId, stars, radius, l.SideB());
    }
  }

  /** A child handle names a new id, registered with the handle's kind, in the filled sector. */
  lemma ChildHandleRegistered(t: Tables, sectorId: Id, stars: real, radius: real, g: GalaxyObject)
    requires Valid(t) && g in ChildHandles(t, sectorId, stars, radius)
    ensures var children := Children(t, sectorId, stars, radius);
      && g.id in IdRange(t.nextId, ChildCount(stars))
      && g.id in children.objects && children.objects[g.id] == g.objType
      && Parent(children, g.id) == Some(sectorId)
  {
    if IsLeafSector(stars) {
      SystemHandleRegistered(t, sectorId, StarsAmount(stars), g);
    } else {
      FutureHandleRegistered(t, sectorId, stars, radius, g);
    }
  }

  lemma SystemHandleRegistered(t: Tables, sectorId: Id, n: nat, g: GalaxyObject)
    requires Valid(t) && g in SystemHandles(t.nextId, n, sectorId)
    ensures var children := InsertSystems(t, sectorId, n);
      && g.id in IdRange(t.nextId, n)
      && g.id in children.objects && children.objects[g.id] == g.objType
      && Parent(children, g.id) == Some(sectorId)
  {
    var children := InsertSystems(t, sectorId, n);
    var handles := SystemHandles(t.nextId, n, sectorId);
    var i :| 0 <= i < |handles| && handles[i] == g;
    assert Within(t.nextId + i, t.nextId, n);
    assert t.nextId + i !in t.objects;
    assert g == FromSystem(StarSystem(t.nextId + i, STAR_NAME, sectorId));
    assert children.systems[g.id] == SystemRow(STAR_NAME, sectorId);
  }

  lemma FutureHandleRegistered(t: Tables, sectorId: Id, stars: real, radius: real, g: GalaxyObject)
    requires Valid(t) && g in FutureHandles(t.nextId, sectorId, stars, radius)
    ensures var children := InsertFutures(t, sectorId, stars, radius);
      && g.id in IdRange(t.nextId, SUB_AMOUNT)
      && g.id in children.objects && children.objects[g.id] == g.objType
      && Parent(children, g.id) == Some(sectorId)
  {
    var children := InsertFutures(t, sectorId, stars, radius);
    var handles := FutureHandles(t.nextId, sectorId, stars, radius);
    var i :| 0 <= i < |handles| && handles[i] == g;
    assert Within(t.nextId + i, t.nextId, SUB_AMOUNT);
    assert t.nextId + i !in t.objects;
    assert g == FromFuture(StarSectorFuture(t.nextId + i, sectorId, SubRadius(radius), SubStars(stars)));
    assert children.futures[g.id].parentId == sectorId;
  }

  lemma FillValid(t: Tables, sectorId: Id, stars: real, radius: real, weights: seq<nat>, gen: Generator)
    requires Valid(t) && sectorId in t.sectors && KeepsLinksAmongSiblings(gen)
    ensures Valid(FillSpec(t, sectorId, stars, radius, weights, gen))
  {
    var children := Children(t, sectorId, stars, radius);
    if IsLeafSector(stars) {
      InsertSystemsValid(t, sectorId, StarsAmount(stars));
    } else {
      InsertFuturesValid(t, sectorId, stars, radius);
    }
    var ls := FillLinks(t, sectorId, stars, radius, weights, gen);
    FillLinksJoinChildren(t, sectorId, stars, radius, weights, gen);
    assert forall i | 0 <= i < |ls| :: ls[i] in ls;
    InsertLinksValid(children, ls);
  }

  lemma GenerateValid(t: Tables, stars: real, radius: real, parent: Option<Id>, weights: seq<nat>, gen: Generator)
    requires Valid(t) && KeepsLinksAmongSiblings(gen)
    ensures Valid(GenerateSpec(t, stars, radius, parent, weights, gen).state)
  {
    CreateValid(t, parent);
    var created := CreateSpec(t, parent);
    if created.result.Ok? {
      FillValid(created.state, created.result.value.id, stars, radius, weights, gen);
    }
  }

  // ---------------------------------------------------------------------------
  // What each step adds

  lemma InsertLinksEffect(t: Tables, ls: seq<NewStarLink>)
    requires forall k | k in t.links :: k < t.nextLinkId
    ensures var a := InsertLinks(t, ls);
      && |a.links| == |t.links| + |ls|
      && (forall k | k in t.links :: k in a.links && a.links[k] == t.links[k])
      && (forall k | k in a.links && k !in t.links :: a.links[k] in ls)
      && (forall k | k in a.links :: k < a.nextLinkId)
  {
    var a := InsertLinks(t, ls);
    var added := map k | k in IdRange(t.nextLinkId, |ls|) :: ls[k - t.nextLinkId];
    assert added.Keys == IdRange(t.nextLinkId, |ls|);
    IdRangeSize(t.nextLinkId, |ls|);
    assert t.links.Keys * added.Keys == {};
    assert a.links.Keys == t.links.Keys + added.Keys;
  }

  /** The i-th inserted link is stored under the i-th fresh link id, counted from `base`. */
  lemma InsertLinksStores(t: Tables, ls: seq<NewStarLink>, base: LinkId)
    requires base == t.nextLinkId
    ensures var a := InsertLinks(t, ls);
      forall i | 0 <= i < |ls| :: base + i in a.links && a.links[base + i] == ls[i]
  {
    var a := InsertLinks(t, ls);
    forall i | 0 <= i < |ls|
      ensures base + i in a.links && a.links[base + i] == ls[i]
    {
      assert Within(base + i, base, |ls|);
    }
  }

  /**
   * A sector with few stars gets `StarsAmount(stars)` systems named
   * `STAR_NAME` and no futures; the new links only join those systems.
   */
  lemma FillLeafEffect(t: Tables, sectorId: Id, stars: real, radius: real, weights: seq<nat>, gen: Generator)
    requires Valid(t) && sectorId in t.sectors && KeepsLinksAmongSiblings(gen) && IsLeafSector(stars)
    ensures var a := FillSpec(t, sectorId, stars, radius, weights, gen);
      && a.sectors == t.sectors && a.futures == t.futures
      && |a.systems| == |t.systems| + StarsAmount(stars)
      && |a.objects| == |t.objects| + StarsAmount(stars)
      && (forall id | id in t.objects :: id in a.objects && a.objects[id] == t.objects[id])
      && (forall id | id in t.systems :: id in a.systems && a.systems[id] == t.systems[id])
      && (forall id | id in a.systems && id !in t.systems ::
            a.systems[id] == SystemRow(STAR_NAME, sectorId) && a.objects[id] == System)
      && (forall id | id in a.objects && id !in t.objects :: id in a.systems)
  {
    InsertSystemsEffect(t, sectorId, StarsAmount(stars));
  }

  /** The next `n` serial ids are used by no table. */
  lemma FreshIds(t: Tables, n: nat)
    requires Valid(t)
    ensures t.objects.Keys !! IdRange(t.nextId, n)
    ensures t.sectors.Keys !! IdRange(t.nextId, n)
    ensures t.futures.Keys !! IdRange(t.nextId, n)
    ensures t.systems.Keys !! IdRange(t.nextId, n)
  {
  }

  /** Adding rows under fresh keys: old rows stay, the new ones carry `v`, the count adds up. */
  lemma AddFresh<V>(m: map<Id, V>, ids: set<Id>, v: V)
    requires m.Keys !! ids
    ensures var r := m + map i | i in ids :: v;
      && r.Keys == m.Keys + ids && |r| == |m| + |ids|
      && (forall i | i in m :: r[i] == m[i])
      && (forall i | i in ids :: r[i] == v)
  {
    var r := m + map i | i in ids :: v;
    assert r.Keys == m.Keys + ids;
  }

  lemma InsertSystemsEffect(t: Tables, sectorId: Id, n: nat)
    requires Valid(t)
    ensures var a := InsertSystems(t, sectorId, n);
      && a.sectors == t.sectors && a.futures == t.futures
      && |a.systems| == |t.systems| + n
      && |a.objects| == |t.objects| + n
      && (forall id | id in t.objects :: id in a.objects && a.objects[id] == t.objects[id])
      && (forall id | id in t.systems :: id in a.systems && a.systems[id] == t.systems[id])
      && (forall id | id in a.systems && id !in t.systems ::
            a.systems[id] == SystemRow(STAR_NAME, sectorId) && a.objects[id] == System)
      && (forall id | id in a.objects && id !in t.objects :: id in a.systems)
  {
    var ids := IdRange(t.nextId, n);
    IdRangeSize(t.nextId, n);
    FreshIds(t, n);
    AddFresh(t.objects, ids, System);
    AddFresh(t.systems, ids, SystemRow(STAR_NAME, sectorId));
  }

  /**
   * A sector with many stars gets `SUB_AMOUNT` futures, each holding a tenth of
   * the stars and the radius scaled down by the cube root of ten, and no
   * systems; the new links only join those futures.
   */
  lemma FillFutureEffect(t: Tables, sectorId: Id, stars: real, radius: real, weights: seq<nat>, gen: Generator)
    requires Valid(t) && sectorId in t.sectors && KeepsLinksAmongSiblings(gen) && !IsLeafSector(stars)
    ensures var a := FillSpec(t, sectorId, stars, radius, weights, gen);
      && a.sectors == t.sectors && a.systems == t.systems
      && |a.futures| == |t.futures| + SUB_AMOUNT
      && |a.objects| == |t.objects| + SUB_AMOUNT
      && (forall id | id in t.objects :: id in a.objects && a.objects[id] == t.objects[id])
      && (forall id | id in t.futures :: id in a.futures && a.futures[id] == t.futures[id])
      && (forall id | id in a.futures && id !in t.futures ::
            && a.futures[id].parentId == sectorId && a.objects[id] == SectorFuture
            && SUB_AMOUNT as real * a.futures[id].stars == stars
            && a.futures[id].radius * CUBE_ROOT_OF_TEN == radius)
      && (forall id | id in a.objects && id !in t.objects :: id in a.futures)
  {
    InsertFuturesEffect(t, sectorId, stars, radius);
  }

  lemma InsertFuturesEffect(t: Tables, sectorId: Id, stars: real, radius: real)
    requires Valid(t)
    ensures var a := InsertFutures(t, sectorId, stars, radius);
      && a.sectors == t.sectors && a.systems == t.systems
      && |a.futures| == |t.futures| + SUB_AMOUNT
      && |a.objects| == |t.objects| + SUB_AMOUNT
      && (forall id | id in t.objects :: id in a.objects && a.objects[id] == t.objects[id])
      && (forall id | id in t.futures :: id in a.futures && a.futures[id] == t.futures[id])
      && (forall id | id in a.futures && id !in t.futures ::
            && a.futures[id] == FutureRow(sectorId, SubRadius(radius), SubStars(stars))
            && a.objects[id] == SectorFuture)
      && (forall id | id in a.objects && id !in t.objects :: id in a.futures)
  {
    var ids := IdRange(t.nextId, SUB_AMOUNT);
    IdRangeSize(t.nextId, SUB_AMOUNT);
    FreshIds(t, SUB_AMOUNT);
    AddFresh(t.objects, ids, SectorFuture);
    AddFresh(t.futures, ids, FutureRow(sectorId, SubRadius(radius), SubStars(stars)));
  }

  /** Filling keeps every old link and adds exactly as many as the generator returns. */
  lemma FillKeepsLinks(t: Tables, sectorId: Id, stars: real, radius: real, weights: seq<nat>, gen: Generator)
    requires Valid(t)
    ensures var a := FillSpec(t, sectorId, stars, radius, weights, gen);
      var ls := FillLinks(t, sectorId, stars, radius, weights, gen);
      && |a.links| == |t.links| + |ls|
      && (forall k | k in t.links :: k in a.links && a.links[k] == t.links[k])
      && (forall k | k in a.links && k !in t.links :: a.links[k] in ls)
  {
    var children := Children(t, sectorId, stars, radius);
    var ls := FillLinks(t, sectorId, stars, radius, weights, gen);
    assert children.links == t.links && children.nextLinkId == t.nextLinkId;
    InsertLinksEffect(children, ls);
  }

  /** The i-th generated link is stored under the i-th fresh link id. */
  lemma FillStoresLinks(t: Tables, sectorId: Id, stars: real, radius: real, weights: seq<nat>, gen: Generator)
    ensures var a := FillSpec(t, sectorId, stars, radius, weights, gen);
      var ls := FillLinks(t, sectorId, stars, radius, weights, gen);
      forall i | 0 <= i < |ls| :: t.nextLinkId + i in a.links && a.links[t.nextLinkId + i] == ls[i]
  {
    ChildrenKeepLinks(t, sectorId, stars, radius);
    InsertLinksStores(Children(t, sectorId, stars, radius), FillLinks(t, sectorId, stars, radius, weights, gen),
                      t.nextLinkId);
  }

  lemma ChildrenKeepLinks(t: Tables, sectorId: Id, stars: real, radius: real)
    ensures Children(t, sectorId, stars, radius).links == t.links
    ensures Children(t, sectorId, stars, radius).nextLinkId == t.nextLinkId
  {
  }

  /** Every link filling adds joins two new children of the filled sector. */
  lemma FillNewLinks(t: Tables, sectorId: Id, stars: real, radius: real, weights: seq<nat>, gen: Generator)
    requires Valid(t) && KeepsLinksAmongSiblings(gen)
    ensures var a := FillSpec(t, sectorId, stars, radius, weights, gen);
      forall k | k in a.links && k !in t.links ::
        && t.nextId <= a.links[k].aId < a.nextId && t.nextId <= a.links[k].bId < a.nextId
        && Parent(a, a.links[k].aId) == Some(sectorId) && Parent(a, a.links[k].bId) == Some(sectorId)
  {
    FillKeepsLinks(t, sectorId, stars, radius, weights, gen);
    var a := FillSpec(t, sectorId, stars, radius, weights, gen);
    forall k | k in a.links && k !in t.links
      ensures t.nextId <= a.links[k].aId < a.nextId && t.nextId <= a.links[k].bId < a.nextId
      ensures Parent(a, a.links[k].aId) == Some(sectorId) && Parent(a, a.links[k].bId) == Some(sectorId)
    {
      NewLinkJoinsChildren(t, sectorId, stars, radius, weights, gen, a.links[k]);
    }
  }

  lemma NewLinkJoinsChildren(t: Tables, sectorId: Id, stars: real, radius: real, weights: seq<nat>, gen: Generator,
                             l: NewStarLink)
    requires Valid(t) && KeepsLinksAmongSiblings(gen)
    requires l in FillLinks(t, sectorId, stars, radius, weights, gen)
    ensures var a := FillSpec(t, sectorId, stars, radius, weights, gen);
      && t.nextId <= l.aId < a.nextId && t.nextId <= l.bId < a.nextId
      && Parent(a, l.aId) == Some(sectorId) && Parent(a, l.bId) == Some(sectorId)
  {
    var children := Children(t, sectorId, stars, radius);
    FillLinksJoinChildren(t, sectorId, stars, radius, weights, gen);
    assert Within(l.aId, t.nextId, ChildCount(stars));
    assert Within(l.bId, t.nextId, ChildCount(stars));
    var a := FillSpec(t, sectorId, stars, radius, weights, gen);
    assert a.sectors == children.sectors && a.futures == children.futures && a.systems == children.systems;
    assert a.nextId == children.nextId == t.nextId + ChildCount(stars);
    ParentSameRows(children, a, l.aId);
    ParentSameRows(children, a, l.bId);
  }

  lemma CreateEffect(t: Tables, parent: Option<Id>)
    requires Valid(t)
    ensures var r := CreateSpec(t, parent);
      && (r.result.Ok? <==> parent.None? || parent.value in t.sectors)
      && (r.result.Err? ==> r.result.error == ForeignKeyViolation && r.state == t)
      && (r.result.Ok? ==>
            && r.result.value.id !in t.objects && r.result.value.parentId == parent
            && r.state.sectors == t.sectors[r.result.value.id := parent]
            && r.state.objects == t.objects[r.result.value.id := Sector]
            && |r.state.objects| == |t.objects| + 1)
  {
  }

  /**
   * Fulfilment succeeds exactly on a future; the future becomes a sector with
   * the same id and parent, no future row and no old link remains on it, and a
   * second fulfilment of the same id finds nothing.
   */
  lemma FulfilEffect(t: Tables, futureId: Id, weights: seq<nat>, gen: Generator)
    requires Valid(t) && KeepsLinksAmongSiblings(gen)
    ensures var r := FulfilSpec(t, futureId, weights, gen);
      && (r.result.Ok? <==> futureId in t.futures)
      && (r.result.Err? ==> r.result.error == NotFound && r.state == t)
      && (r.result.Ok? ==>
            && r.result.value == StarSector(futureId, Some(t.futures[futureId].parentId))
            && futureId !in r.state.futures
            && futureId in r.state.objects && r.state.objects[futureId] == Sector
            && futureId in r.state.sectors && r.state.sectors[futureId] == Some(t.futures[futureId].parentId)
            && (forall k | k in r.state.links :: !r.state.links[k].Touches({futureId})))
  {
    if futureId in t.futures {
      FulfilRows(t, futureId, weights, gen);
      FulfilUnlinks(t, futureId, weights, gen);
    }
  }

  lemma FulfilRows(t: Tables, futureId: Id, weights: seq<nat>, gen: Generator)
    requires Valid(t) && KeepsLinksAmongSiblings(gen) && futureId in t.futures
    ensures var a := FulfilSpec(t, futureId, weights, gen).state;
      && futureId !in a.futures
      && futureId in a.objects && a.objects[futureId] == Sector
      && futureId in a.sectors && a.sectors[futureId] == Some(t.futures[futureId].parentId)
  {
    var future := t.futures[futureId];
    var t1 := Convert(t, futureId);
    FulfilStepValid(t, futureId);
    if IsLeafSector(future.stars) {
      FillLeafEffect(t1, futureId, future.stars, future.radius, weights, gen);
    } else {
      FillFutureEffect(t1, futureId, future.stars, future.radius, weights, gen);
    }
  }

  /** Filling adds no link touching an id that existed before, and keeps the old links. */
  lemma FillLinksAvoid(t: Tables, sectorId: Id, stars: real, radius: real, weights: seq<nat>, gen: Generator, id: Id)
    requires Valid(t) && KeepsLinksAmongSiblings(gen) && id < t.nextId
    requires forall k | k in t.links :: !t.links[k].Touches({id})
    ensures var a := FillSpec(t, sectorId, stars, radius, weights, gen);
      forall k | k in a.links :: !a.links[k].Touches({id})
  {
    var a := FillSpec(t, sectorId, stars, radius, weights, gen);
    FillKeepsLinks(t, sectorId, stars, radius, weights, gen);
    FillNewLinks(t, sectorId, stars, radius, weights, gen);
    AddedLinksAvoid(t.links, a.links, id, t.nextId);
  }

  /** Links kept from `before`, plus links between ids from `n` on, touch no id below `n` that `before` avoided. */
  lemma AddedLinksAvoid(before: map<LinkId, NewStarLink>, after: map<LinkId, NewStarLink>, id: Id, n: Id)
    requires id < n && forall k | k in before :: !before[k].Touches({id})
    requires forall k | k in before :: k in after && after[k] == before[k]
    requires forall k | k in after && k !in before :: n <= after[k].aId && n <= after[k].bId
    ensures forall k | k in after :: !after[k].Touches({id})
  {
  }

  lemma FulfilUnlinks(t: Tables, futureId: Id, weights: seq<nat>, gen: Generator)
    requires Valid(t) && KeepsLinksAmongSiblings(gen) && futureId in t.futures
    ensures var a := FulfilSpec(t, futureId, weights, gen).state;
      forall k | k in a.links :: !a.links[k].Touches({futureId})
  {
    var future := t.futures[futureId];
    FulfilStepValid(t, futureId);
    FillLinksAvoid(Convert(t, futureId), futureId, future.stars, future.radius, weights, gen, futureId);
  }

  /** The in-place conversion of a future into a sector keeps the invariant. */
  lemma FulfilStepValid(t: Tables, futureId: Id)
    requires Valid(t) && futureId in t.futures
    ensures Valid(Convert(t, futureId)) && futureId < Convert(t, futureId).nextId
  {
    ConvertRows(t, futureId);
    ConvertLinks(t, futureId);
  }

  lemma ConvertRows(t: Tables, futureId: Id)
    requires Valid(t) && futureId in t.futures
    ensures KindsMatch(Convert(t, futureId)) && ParentsPrecede(Convert(t, futureId))
    ensures futureId < Convert(t, futureId).nextId
  {
    assert futureId !in t.sectors && futureId !in t.systems;
  }

  lemma ConvertLinks(t: Tables, futureId: Id)
    requires Valid(t) && futureId in t.futures
    ensures LinksValid(Convert(t, futureId))
  {
    var t1 := Convert(t, futureId);
    assert futureId !in t.sectors && futureId !in t.systems;
    forall k | k in t1.links
      ensures LinkValid(t1, t1.links[k])
    {
      var l := t1.links[k];
      assert l == t.links[k] && LinkValid(t, l);
      assert l.aId != futureId && l.bId != futureId;
      assert Parent(t1, l.aId) == Parent(t, l.aId) && Parent(t1, l.bId) == Parent(t, l.bId);
    }
  }

  lemma FulfilValid(t: Tables, futureId: Id, weights: seq<nat>, gen: Generator)
    requires Valid(t) && KeepsLinksAmongSiblings(gen)
    ensures Valid(FulfilSpec(t, futureId, weights, gen).state)
  {
    if futureId in t.futures {
      var future := t.futures[futureId];
      FulfilStepValid(t, futureId);
      FillValid(Convert(t, futureId), futureId, future.stars, future.radius, weights, gen);
    }
  }

  /** A future is fulfilled at most once. */
  lemma FulfilTwiceFails(t: Tables, futureId: Id, weights: seq<nat>, gen: Generator,
                         weights2: seq<nat>, gen2: Generator)
    requires Valid(t) && KeepsLinksAmongSiblings(gen)
    requires FulfilSpec(t, futureId, weights, gen).result.Ok?
    ensures var a := FulfilSpec(t, futureId, weights, gen).state;
      FulfilSpec(a, futureId, weights2, gen2) == Outcome(a, Err(NotFound))
  {
    FulfilEffect(t, futureId, weights, gen);
  }

  lemma GenerateEffect(t: Tables, stars: real, radius: real, parent: Option<Id>, weights: seq<nat>, gen: Generator)
    requires Valid(t) && KeepsLinksAmongSiblings(gen)
    ensures var r := GenerateSpec(t, stars, radius, parent, weights, gen);
      && (r.result.Ok? <==> parent.None? || parent.value in t.sectors)
      && (r.result.Err? ==> r.result.error == ForeignKeyViolation && r.state == t)
      && (r.result.Ok? ==>
            && r.result.value.id !in t.objects && r.result.value.parentId == parent
            && r.state.sectors[r.result.value.id] == parent
            && |r.state.objects| == |t.objects| + 1 +
                 (if IsLeafSector(stars) then StarsAmount(stars) else SUB_AMOUNT))
  {
    CreateEffect(t, parent);
    CreateValid(t, parent);
    var created := CreateSpec(t, parent);
    if created.result.Ok? {
      var id := created.result.value.id;
      if IsLeafSector(stars) {
        FillLeafEffect(created.state, id, stars, radius, weights, gen);
      } else {
        FillFutureEffect(created.state, id, stars, radius, weights, gen);
      }
    }
  }
}
