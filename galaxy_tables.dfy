/**
 * The five tables the galaxy code reads and writes, as one immutable
 * snapshot, with the store invariant and the row-removal operation that
 * every deletion is built from.
 */
module GalaxyTables {
  import opened Wrappers
  import opened SchemaTypes
  import opened Models
  import opened StarLinks

  /** A `star_links` row id (a serial in the database). */
  type LinkId = nat

  /** A `star_sector_futures` row without its id. */
  datatype FutureRow = FutureRow(parentId: Id, radius: real, stars: real)

  /** A `star_systems` row without its id. */
  datatype SystemRow = SystemRow(name: string, sectorId: Id)

  /** The errors the galaxy operations surface (`diesel::result::Error`). */
  datatype Error = NotFound | ForeignKeyViolation

  datatype Tables = Tables(
    objects: map<Id, GalaxyObjectType>,   // galaxy_objects: id -> obj_type
    sectors: map<Id, Option<Id>>,         // star_sectors: id -> parent_id
    futures: map<Id, FutureRow>,          // star_sector_futures
    systems: map<Id, SystemRow>,          // star_systems
    links: map<LinkId, NewStarLink>,      // star_links
    nextId: Id,                           // next value of the galaxy object id sequence
    nextLinkId: LinkId)                   // next value of the link id sequence

  /** A state change together with what the operation returned. */
  datatype Outcome<T> = Outcome(state: Tables, result: Result<T, Error>)

  function Empty(): Tables
  {
    Tables(map[], map[], map[], map[], map[], 1, 1)
  }

  /** The container a galaxy object sits in: a sector's parent, a future's parent, a system's sector. */
  function Parent(t: Tables, id: Id): Option<Id>
  {
    if id in t.sectors then t.sectors[id]
    else if id in t.futures then Some(t.futures[id].parentId)
    else if id in t.systems then Some(t.systems[id].sectorId)
    else None
  }

  /** The handle the registry gives an id. */
  function Handle(t: Tables, id: Id): GalaxyObject
    requires id in t.objects
  {
    GalaxyObject(id, t.objects[id])
  }

  /** Every registered object is exactly one concrete row, of the matching kind. */
  ghost predicate KindsMatch(t: Tables)
  {
    && (forall id | id in t.objects :: id in t.sectors || id in t.futures || id in t.systems)
    && (forall id | id in t.sectors :: id in t.objects && t.objects[id] == Sector)
    && (forall id | id in t.futures :: id in t.objects && t.objects[id] == SectorFuture)
    && (forall id | id in t.systems :: id in t.objects && t.objects[id] == System)
  }

  /**
   * Every parent reference points at an existing sector with a smaller id
   * (ids come from one increasing sequence and parents are created first),
   * and every id in use was drawn from the sequence.
   */
  ghost predicate ParentsPrecede(t: Tables)
  {
    && (forall id | id in t.objects :: id < t.nextId)
    && (forall id | id in t.sectors && t.sectors[id].Some? ::
          t.sectors[id].value in t.sectors && t.sectors[id].value < id)
    && (forall id | id in t.futures ::
          t.futures[id].parentId in t.sectors && t.futures[id].parentId < id)
    && (forall id | id in t.systems ::
          t.systems[id].sectorId in t.sectors && t.systems[id].sectorId < id)
  }

  /** A link joins two registered objects of the kinds it records, which are siblings. */
  ghost predicate LinkValid(t: Tables, l: NewStarLink)
  {
    && l.aId in t.objects && t.objects[l.aId] == l.aObjType
    && l.bId in t.objects && t.objects[l.bId] == l.bObjType
    && Parent(t, l.aId).Some? && Parent(t, l.aId) == Parent(t, l.bId)
  }

  ghost predicate LinksValid(t: Tables)
  {
    forall k | k in t.links :: k < t.nextLinkId && LinkValid(t, t.links[k])
  }

  /** The store invariant. */
  ghost predicate Valid(t: Tables)
  {
    KindsMatch(t) && ParentsPrecede(t) && LinksValid(t)
  }

  lemma EmptyValid()
    ensures Valid(Empty())
  {
  }

  /** The links with no endpoint among `ids`. */
  function LinksNotTouching(links: map<LinkId, NewStarLink>, ids: set<Id>): (r: map<LinkId, NewStarLink>)
    ensures r.Keys <= links.Keys
    ensures forall k | k in links :: k in r <==> !links[k].Touches(ids)
    ensures forall k | k in r :: r[k] == links[k]
  {
    map k | k in links && !links[k].Touches(ids) :: links[k]
  }

  /** The links with an endpoint among `ids`. */
  function LinksTouching(links: map<LinkId, NewStarLink>, ids: set<Id>): (r: map<LinkId, NewStarLink>)
    ensures r.Keys <= links.Keys
    ensures forall k | k in links :: k in r <==> links[k].Touches(ids)
    ensures forall k | k in r :: r[k] == links[k]
  {
    map k | k in links && links[k].Touches(ids) :: links[k]
  }

  /** Removing the touching links leaves exactly the others, and the counts add up. */
  lemma {:induction false} LinksPartition(links: map<LinkId, NewStarLink>, ids: set<Id>)
    ensures LinksNotTouching(links, ids).Keys == links.Keys - LinksTouching(links, ids).Keys
    ensures |LinksNotTouching(links, ids)| + |LinksTouching(links, ids)| == |links|
  {
    var keep, drop := LinksNotTouching(links, ids), LinksTouching(links, ids);
    assert keep.Keys == links.Keys - drop.Keys;
    assert keep.Keys !! drop.Keys;
    assert keep.Keys + drop.Keys == links.Keys;
    assert |keep.Keys + drop.Keys| == |keep.Keys| + |drop.Keys|;
  }

  /** Every row, registry entry and link of the ids in `S` removed. */
  function Erase(t: Tables, S: set<Id>): Tables
  {
    t.(objects := t.objects - S, sectors := t.sectors - S, futures := t.futures - S,
       systems := t.systems - S, links := LinksNotTouching(t.links, S))
  }

  /** Erasing in two steps is erasing the union. */
  lemma EraseTwice(t: Tables, A: set<Id>, B: set<Id>)
    ensures Erase(Erase(t, A), B) == Erase(t, A + B)
  {
    LinksNotTouchingTwice(t.links, A, B);
  }

  lemma LinksNotTouchingTwice(links: map<LinkId, NewStarLink>, A: set<Id>, B: set<Id>)
    ensures LinksNotTouching(LinksNotTouching(links, A), B) == LinksNotTouching(links, A + B)
  {
    var l1 := LinksNotTouching(LinksNotTouching(links, A), B);
    var l2 := LinksNotTouching(links, A + B);
    assert l1.Keys == l2.Keys;
  }

  /** No row has its container in `S` without being in `S` itself. */
  ghost predicate DownClosed(t: Tables, S: set<Id>)
  {
    && (forall id | id in t.sectors && t.sectors[id].Some? && t.sectors[id].value in S :: id in S)
    && (forall id | id in t.futures && t.futures[id].parentId in S :: id in S)
    && (forall id | id in t.systems && t.systems[id].sectorId in S :: id in S)
  }

  /** Erasing a set closed under containment keeps the store valid. */
  lemma EraseValid(t: Tables, S: set<Id>)
    requires Valid(t) && DownClosed(t, S)
    ensures Valid(Erase(t, S))
  {
    EraseKindsMatch(t, S);
    EraseParentsPrecede(t, S);
    EraseLinksValid(t, S);
  }

  lemma EraseKindsMatch(t: Tables, S: set<Id>)
    requires KindsMatch(t)
    ensures KindsMatch(Erase(t, S))
  {
  }

  lemma EraseParentsPrecede(t: Tables, S: set<Id>)
    requires ParentsPrecede(t) && DownClosed(t, S)
    ensures ParentsPrecede(Erase(t, S))
  {
  }

  lemma EraseLinksValid(t: Tables, S: set<Id>)
    requires Valid(t)
    ensures LinksValid(Erase(t, S))
  {
    var e := Erase(t, S);
    forall k | k in e.links
      ensures LinkValid(e, e.links[k])
    {
      var l := e.links[k];
      assert LinkValid(t, l);
      assert Parent(e, l.aId) == Parent(t, l.aId) && Parent(e, l.bId) == Parent(t, l.bId);
    }
  }

  /** Adding rows for new ids, and no links, keeps every link valid. */
  lemma GrowLinksValid(t: Tables, a: Tables)
    requires LinksValid(t) && a.links == t.links && a.nextLinkId == t.nextLinkId
    requires forall id | id in t.objects ::
      id in a.objects && a.objects[id] == t.objects[id] && Parent(a, id) == Parent(t, id)
    ensures LinksValid(a)
  {
    forall k | k in a.links
      ensures LinkValid(a, a.links[k])
    {
      assert LinkValid(t, t.links[k]);
    }
  }

  /** Whether a link is valid does not depend on the link table. */
  lemma LinkValidSameRows(t: Tables, a: Tables, l: NewStarLink)
    requires a.objects == t.objects && a.sectors == t.sectors && a.futures == t.futures && a.systems == t.systems
    ensures LinkValid(a, l) == LinkValid(t, l)
  {
    assert Parent(a, l.aId) == Parent(t, l.aId) && Parent(a, l.bId) == Parent(t, l.bId);
  }

  /** The container of an id depends only on the sector, future and system tables. */
  lemma ParentSameRows(t: Tables, a: Tables, id: Id)
    requires a.sectors == t.sectors && a.futures == t.futures && a.systems == t.systems
    ensures Parent(a, id) == Parent(t, id)
  {
  }
}
