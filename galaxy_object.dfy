/**
 * Row records of the four concrete tables (tg_space_game/src/models/) and the
 * `GalaxyObject` handle: an id tagged with its kind. The `From` conversions
 * are the only way the galaxy code turns a concrete row into a handle.
 */
module Models {
  import opened Wrappers
  import opened SchemaTypes

  /** A galaxy object id (an `i32` serial in the database). */
  type Id = nat

  datatype GalaxyObject = GalaxyObject(id: Id, objType: GalaxyObjectType)

  datatype StarSector = StarSector(id: Id, parentId: Option<Id>)

  datatype StarSectorFuture = StarSectorFuture(id: Id, parentId: Id, radius: real, stars: real)

  datatype StarSystem = StarSystem(id: Id, name: string, sectorId: Id)

  /** `impl From<&StarSector> for GalaxyObject`. */
  function FromSector(s: StarSector): (g: GalaxyObject)
    ensures g.id == s.id && g.objType == Sector
  {
    GalaxyObject(s.id, Sector)
  }

  /** `impl From<&StarSectorFuture> for GalaxyObject`. */
  function FromFuture(f: StarSectorFuture): (g: GalaxyObject)
    ensures g.id == f.id && g.objType == SectorFuture
  {
    GalaxyObject(f.id, SectorFuture)
  }

  /** `impl From<&StarSystem> for GalaxyObject`. */
  function FromSystem(y: StarSystem): (g: GalaxyObject)
    ensures g.id == y.id && g.objType == System
  {
    GalaxyObject(y.id, System)
  }

  /**
   * Handles compare structurally on (id, kind): rows of different tables that
   * share an id convert to pairwise different handles, and the kind each
   * conversion tags is read back from the handle unchanged through the
   * enum's database encoding.
   */
  lemma ConversionsDistinguishKinds(s: StarSector, f: StarSectorFuture, y: StarSystem)
    requires s.id == f.id == y.id
    ensures FromSector(s) != FromFuture(f)
    ensures FromSector(s) != FromSystem(y)
    ensures FromFuture(f) != FromSystem(y)
    ensures FromSql(Some(Label(FromSector(s).objType))) == Ok(Sector)
    ensures FromSql(Some(Label(FromFuture(f).objType))) == Ok(SectorFuture)
    ensures FromSql(Some(Label(FromSystem(y).objType))) == Ok(System)
  {
    RoundTrip(Sector);
    RoundTrip(SectorFuture);
    RoundTrip(System);
  }
}
