/**
 * What `delete_sector` removes: the sector, every sector below it, the
 * futures and systems of all of those, their links and their registry rows.
 * The lemmas here split a subtree into the direct children of its root, which
 * is how the recursive deletion walks it.
 */
module Cascade {
  import opened Wrappers
  import opened SchemaTypes
  import opened Models
  import opened StarLinks
  import opened GalaxyTables

  /** Following sector parents upward from `s` reaches `root` (or `s` is `root`). */
  predicate Under(t: Tables, s: Id, root: Id)
    decreases s
  {
    s == root
    || (s in t.sectors && t.sectors[s].Some? && t.sectors[s].value < s && Under(t, t.sectors[s].value, root))
  }

  /** Futures whose parent is `sectorId` (the query in `delete_sector_futures`). */
  function ChildFutures(t: Tables, sectorId: Id): set<Id>
  {
    set f | f in t.futures && t.futures[f].parentId == sectorId
  }

  /** Systems whose sector is `sectorId` (the query in `delete_sector_systems`). */
  function ChildSystems(t: Tables, sectorId: Id): set<Id>
  {
    set y | y in t.systems && t.systems[y].sectorId == sectorId
  }

  /** Sectors whose parent is `sectorId` (the query in `delete_sector`). */
  function ChildSectors(t: Tables, sectorId: Id): set<Id>
  {
    set s | s in t.sectors && t.sectors[s] == Some(sectorId)
  }

  /** `root` with every sector, future and system below it. */
  function Subtree(t: Tables, root: Id): set<Id>
  {
    {root}
    + (set s | s in t.sectors && Under(t, s, root))
    + (set f | f in t.futures && Under(t, t.futures[f].parentId, root))
    + (set y | y in t.systems && Under(t, t.systems[y].sectorId, root))
  }

  /** The last three statements of `delete_sector`: links, the sector row, its registry row. */
  function RemoveSectorRow(t: Tables, root: Id): Tables
  {
    t.(links := LinksNotTouching(t.links, {root}), sectors := t.sectors - {root}, objects := t.objects - {root})
  }

  /** `delete_sector(root)` as written: the descendants are erased, then `root` itself. */
  function AfterDeleteSector(t: Tables, root: Id): Tables
  {
    RemoveSectorRow(Erase(t, Subtree(t, root) - {root}), root)
  }

  // ---------------------------------------------------------------------------
  // The ancestor relation

  lemma {:induction false} UnderBound(t: Tables, s: Id, root: Id)
    requires Under(t, s, root)
    ensures root <= s
    decreases s
  {
    if s != root {
      UnderBound(t, t.sectors[s].value, root);
    }
  }

  lemma {:induction false} UnderTransitive(t: Tables, s: Id, m: Id, root: Id)
    requires Under(t, s, m) && Under(t, m, root)
    ensures Under(t, s, root)
    decreases s
  {
    if s != m {
      UnderTransitive(t, t.sectors[s].value, m, root);
    }
  }

  /** Two ancestors of one node lie on one chain. */
  lemma {:induction false} UnderLinear(t: Tables, s: Id, a: Id, b: Id)
    requires Under(t, s, a) && Under(t, s, b)
    ensures Under(t, a, b) || Under(t, b, a)
    decreases s
  {
    if s != a && s != b {
      UnderLinear(t, t.sectors[s].value, a, b);
    }
  }

  /** A strict descendant of `root` lies below one of `root`'s child sectors. */
  lemma {:induction false} UnderChild(t: Tables, s: Id, root: Id) returns (c: Id)
    requires Under(t, s, root) && s != root
    ensures c in ChildSectors(t, root) && Under(t, s, c)
    decreases s
  {
    var p := t.sectors[s].value;
    if p == root {
      c := s;
    } else {
      c := UnderChild(t, p, root);
    }
  }

  /** Removing ids outside `c`'s subtree does not change what lies below `c`. */
  lemma {:induction false} UnderErase(t: Tables, E: set<Id>, s: Id, c: Id)
    requires E !! Subtree(t, c)
    ensures Under(Erase(t, E), s, c) <==> Under(t, s, c)
    decreases s
  {
    if s != c && s in t.sectors && t.sectors[s].Some? && t.sectors[s].value < s {
      UnderErase(t, E, t.sectors[s].value, c);
      if Under(t, s, c) {
        assert s in Subtree(t, c);
      }
    }
  }

  /** A sector row in the subtree of `c` is below `c`. */
  lemma SubtreeSector(t: Tables, c: Id, s: Id)
    requires Valid(t) && s in t.sectors && s in Subtree(t, c)
    ensures Under(t, s, c)
  {
  }

  // ---------------------------------------------------------------------------
  // Subtrees under erasure and containment

  lemma SubtreeFrame(t: Tables, E: set<Id>, c: Id)
    requires E !! Subtree(t, c)
    ensures Subtree(Erase(t, E), c) == Subtree(t, c)
  {
    var e := Erase(t, E);
    forall s
      ensures Under(e, s, c) <==> Under(t, s, c)
    {
      UnderErase(t, E, s, c);
    }
    assert (set s | s in e.sectors && Under(e, s, c)) == (set s | s in t.sectors && Under(t, s, c));
    assert (set f | f in e.futures && Under(e, e.futures[f].parentId, c))
        == (set f | f in t.futures && Under(t, t.futures[f].parentId, c));
    assert (set y | y in e.systems && Under(e, e.systems[y].sectorId, c))
        == (set y | y in t.systems && Under(t, t.systems[y].sectorId, c));
  }

  lemma SubtreeDownClosed(t: Tables, c: Id)
    requires Valid(t)
    ensures DownClosed(t, Subtree(t, c))
  {
    var S := Subtree(t, c);
    forall id | id in t.sectors && t.sectors[id].Some? && t.sectors[id].value in S
      ensures id in S
    {
      SubtreeSector(t, c, t.sectors[id].value);
    }
    forall id | id in t.futures && t.futures[id].parentId in S
      ensures id in S
    {
      SubtreeSector(t, c, t.futures[id].parentId);
    }
    forall id | id in t.systems && t.systems[id].sectorId in S
      ensures id in S
    {
      SubtreeSector(t, c, t.systems[id].sectorId);
    }
  }

  /** Futures and systems contain nothing, so any set of them is closed. */
  lemma LeavesDownClosed(t: Tables, S: set<Id>)
    requires Valid(t)
    requires forall id | id in S :: id in t.futures || id in t.systems
    ensures DownClosed(t, S)
  {
  }

  lemma DownClosedUnion(t: Tables, A: set<Id>, B: set<Id>)
    requires DownClosed(t, A) && DownClosed(t, B)
    ensures DownClosed(t, A + B)
  {
  }

  // ---------------------------------------------------------------------------
  // Splitting a subtree at its root

  /** The subtree of a child sector is part of the parent's subtree, below the parent. */
  lemma ChildSubtreeInside(t: Tables, root: Id, c: Id)
    requires Valid(t) && c in ChildSectors(t, root)
    ensures Subtree(t, c) <= Subtree(t, root) - {root}
  {
    assert Under(t, c, root);
    forall x | x in Subtree(t, c)
      ensures x in Subtree(t, root) && x != root
    {
      if x in t.sectors && Under(t, x, c) {
        UnderTransitive(t, x, c, root);
        UnderBound(t, x, c);
      } else if x in t.futures && Under(t, t.futures[x].parentId, c) {
        UnderTransitive(t, t.futures[x].parentId, c, root);
      } else if x in t.systems && Under(t, t.systems[x].sectorId, c) {
        UnderTransitive(t, t.systems[x].sectorId, c, root);
      }
    }
  }

  lemma LeafChildrenInside(t: Tables, root: Id)
    requires Valid(t)
    ensures ChildFutures(t, root) + ChildSystems(t, root) <= Subtree(t, root) - {root}
  {
    forall x | x in ChildFutures(t, root) + ChildSystems(t, root)
      ensures x != root
    {
    }
  }

  /** What is below `root` is a direct future or system of it, or in some child sector's subtree. */
  lemma BranchOf(t: Tables, root: Id, x: Id) returns (c: Id)
    requires Valid(t) && x in Subtree(t, root) - {root}
    requires x !in ChildFutures(t, root) + ChildSystems(t, root)
    ensures c in ChildSectors(t, root) && x in Subtree(t, c)
  {
    if x in t.sectors && Under(t, x, root) {
      c := UnderChild(t, x, root);
    } else if x in t.futures && Under(t, t.futures[x].parentId, root) {
      c := UnderChild(t, t.futures[x].parentId, root);
    } else {
      assert x in t.systems && Under(t, t.systems[x].sectorId, root);
      c := UnderChild(t, t.systems[x].sectorId, root);
    }
  }

  /** The subtrees of two different child sectors share nothing. */
  lemma ChildSubtreesDisjoint(t: Tables, root: Id, c1: Id, c2: Id)
    requires Valid(t) && c1 in ChildSectors(t, root) && c2 in ChildSectors(t, root) && c1 != c2
    ensures Subtree(t, c1) !! Subtree(t, c2)
  {
    forall x | x in Subtree(t, c1) && x in Subtree(t, c2)
      ensures false
    {
      var s := if x in t.futures then t.futures[x].parentId
               else if x in t.systems then t.systems[x].sectorId
               else x;
      assert Under(t, s, c1) && Under(t, s, c2);
      UnderLinear(t, s, c1, c2);
      if Under(t, c1, c2) {
        UnderBound(t, root, c2);
      } else {
        UnderBound(t, root, c1);
      }
    }
  }

  /** A child sector's subtree holds none of the parent's direct futures and systems. */
  lemma ChildSubtreeAvoidsLeaves(t: Tables, root: Id, c: Id)
    requires Valid(t) && c in ChildSectors(t, root)
    ensures Subtree(t, c) !! ChildFutures(t, root) + ChildSystems(t, root)
  {
    forall x | x in Subtree(t, c) && x in ChildFutures(t, root) + ChildSystems(t, root)
      ensures false
    {
      var p := if x in t.futures then t.futures[x].parentId else t.systems[x].sectorId;
      assert p == root && Under(t, p, c);
      UnderBound(t, root, c);
    }
  }

  /** When `c` is no future and no system, removing its sector row is erasing it. */
  lemma RemoveSectorRowIsErase(t: Tables, c: Id)
    requires c !in t.futures && c !in t.systems
    ensures RemoveSectorRow(t, c) == Erase(t, {c})
  {
  }

  // ---------------------------------------------------------------------------
  // What `delete_sector` does to the store

  /**
   * Applied to a sector (or to an unused id), `delete_sector` erases exactly
   * the subtree: its rows, registry entries and every link touching it go,
   * and every other row and link stays as it was.
   */
  lemma DeleteSectorErasesSubtree(t: Tables, root: Id)
    requires root !in t.futures && root !in t.systems
    ensures AfterDeleteSector(t, root) == Erase(t, Subtree(t, root))
  {
    var S := Subtree(t, root);
    RemoveSectorRowIsErase(Erase(t, S - {root}), root);
    EraseTwice(t, S - {root}, {root});
    assert S - {root} + {root} == S;
  }

  lemma DeleteSectorValid(t: Tables, root: Id)
    requires Valid(t) && root !in t.futures && root !in t.systems
    ensures Valid(AfterDeleteSector(t, root))
  {
    DeleteSectorErasesSubtree(t, root);
    SubtreeDownClosed(t, root);
    EraseValid(t, Subtree(t, root));
  }

  /** Nothing of the subtree is left: no row, no registry entry, no link touching it. */
  lemma DeleteSectorLeavesNoTrace(t: Tables, root: Id, x: Id)
    requires root !in t.futures && root !in t.systems && x in Subtree(t, root)
    ensures var a := AfterDeleteSector(t, root);
      && x !in a.objects && x !in a.sectors && x !in a.futures && x !in a.systems
      && forall k | k in a.links :: a.links[k].aId != x && a.links[k].bId != x
  {
    DeleteSectorErasesSubtree(t, root);
  }

  /** Ids outside the subtree keep their rows, and links away from it stay. */
  lemma DeleteSectorKeepsRest(t: Tables, root: Id, x: Id)
    requires root !in t.futures && root !in t.systems && x !in Subtree(t, root)
    ensures var a := AfterDeleteSector(t, root);
      && (x in t.objects ==> x in a.objects && a.objects[x] == t.objects[x])
      && (x in t.sectors ==> x in a.sectors && a.sectors[x] == t.sectors[x])
      && (x in t.futures ==> x in a.futures && a.futures[x] == t.futures[x])
      && (x in t.systems ==> x in a.systems && a.systems[x] == t.systems[x])
      && forall k | k in t.links && !t.links[k].Touches(Subtree(t, root)) ::
           k in a.links && a.links[k] == t.links[k]
  {
    DeleteSectorErasesSubtree(t, root);
  }

  /** Deleting one root sector spares the star systems of any other root sector. */
  lemma DeleteSectorSparesOtherRoot(t: Tables, root: Id, other: Id)
    requires Valid(t) && root != other
    requires root in t.sectors && t.sectors[root].None?
    requires other in t.sectors && t.sectors[other].None?
    ensures ChildSystems(AfterDeleteSector(t, root), other) == ChildSystems(t, other)
  {
    DeleteSectorErasesSubtree(t, root);
    var a := AfterDeleteSector(t, root);
    forall y | y in ChildSystems(t, other)
      ensures y !in Subtree(t, root)
    {
    }
  }

  /** Below an id that is not a sector there is nothing. */
  lemma {:induction false} UnderNonSector(t: Tables, s: Id, root: Id)
    requires Valid(t) && root !in t.sectors && Under(t, s, root)
    ensures s == root
  {
    if s != root {
      var c := UnderChild(t, s, root);
      assert false;
    }
  }

  /** The subtree of an id that is not a sector is that id alone. */
  lemma SubtreeOfNonSector(t: Tables, root: Id)
    requires Valid(t) && root !in t.sectors
    ensures Subtree(t, root) == {root}
  {
    forall x | x in Subtree(t, root)
      ensures x == root
    {
      if x in t.sectors && Under(t, x, root) {
        UnderNonSector(t, x, root);
      } else if x in t.futures && Under(t, t.futures[x].parentId, root) {
        UnderNonSector(t, t.futures[x].parentId, root);
      } else if x in t.systems && Under(t, t.systems[x].sectorId, root) {
        UnderNonSector(t, t.systems[x].sectorId, root);
      }
    }
  }

  /** Deleting an unused id succeeds and changes nothing (the row count is ignored). */
  lemma DeleteMissingSectorIsNoOp(t: Tables, root: Id)
    requires Valid(t) && root !in t.objects
    ensures AfterDeleteSector(t, root) == t
  {
    SubtreeOfNonSector(t, root);
    assert Subtree(t, root) - {root} == {};
    EraseNothing(t);
    RemoveMissingRow(t, root);
  }

  lemma EraseNothing(t: Tables)
    ensures Erase(t, {}) == t
  {
    assert LinksNotTouching(t.links, {}) == t.links;
  }

  /** Removing the rows of an id that has none leaves the tables as they were. */
  lemma RemoveMissingRow(t: Tables, root: Id)
    requires Valid(t) && root !in t.objects
    ensures RemoveSectorRow(t, root) == t
  {
    assert LinksNotTouching(t.links, {root}) == t.links;
    assert t.sectors - {root} == t.sectors;
  }

  /**
   * Finding: given the id of a star system or a future, `delete_sector`
   * deletes that object's registry row and links but leaves its concrete row,
   * which then has no galaxy object: the store invariant is broken.
   */
  lemma DeleteSectorOrphansLeafRow(t: Tables, root: Id)
    requires Valid(t) && (root in t.systems || root in t.futures)
    ensures var a := AfterDeleteSector(t, root);
      && (root in t.systems ==> root in a.systems)
      && (root in t.futures ==> root in a.futures)
      && root !in a.objects
      && !Valid(a)
  {
    forall x | x in Subtree(t, root) - {root}
      ensures x != root
    {
    }
    var a := AfterDeleteSector(t, root);
    assert root in a.systems || root in a.futures;
  }

  /**
   * `delete_sector` corrected: an id registered as something other than a
   * sector is refused with NotFound instead of being half deleted.
   */
  function DeleteSectorChecked(t: Tables, root: Id): Outcome<()>
  {
    if root in t.objects && t.objects[root] != Sector then Outcome(t, Err(NotFound))
    else Outcome(AfterDeleteSector(t, root), Ok(()))
  }

  lemma DeleteSectorCheckedValid(t: Tables, root: Id)
    requires Valid(t)
    ensures Valid(DeleteSectorChecked(t, root).state)
    ensures DeleteSectorChecked(t, root).result.Ok? <==> root !in t.futures && root !in t.systems
  {
    if root !in t.futures && root !in t.systems {
      DeleteSectorValid(t, root);
    }
  }

  /**
   * Erasing leaves (futures or systems) touches only their own table, the
   * registry and the links, keeps the store valid, and every leaf had a
   * registry row.
   */
  lemma EraseLeaves(t: Tables, ids: set<Id>)
    requires Valid(t)
    requires (forall id | id in ids :: id in t.futures) || (forall id | id in ids :: id in t.systems)
    ensures Erase(t, ids).sectors == t.sectors
    ensures (forall id | id in ids :: id in t.futures) ==> Erase(t, ids).systems == t.systems
    ensures (forall id | id in ids :: id in t.systems) ==> Erase(t, ids).futures == t.futures
    ensures t.objects.Keys * ids == ids
    ensures Valid(Erase(t, ids))
  {
    LeavesDownClosed(t, ids);
    EraseValid(t, ids);
  }

  // ---------------------------------------------------------------------------
  // The steps of the recursive delete

  /** After the futures and then the systems of `root` are erased, the leaves are gone. */
  lemma DeleteLeavesStep(t: Tables, root: Id)
    requires Valid(t)
    ensures Valid(Erase(t, ChildFutures(t, root)))
    ensures ChildSystems(Erase(t, ChildFutures(t, root)), root) == ChildSystems(t, root)
    ensures Erase(Erase(t, ChildFutures(t, root)), ChildSystems(t, root)) == Erase(t, Leaves(t, root))
    ensures ChildSectors(Erase(t, Leaves(t, root)), root) == ChildSectors(t, root)
  {
    EraseLeaves(t, ChildFutures(t, root));
    EraseTwice(t, ChildFutures(t, root), ChildSystems(t, root));
  }

  /** The futures and systems directly in `root`. */
  function Leaves(t: Tables, root: Id): set<Id>
  {
    ChildFutures(t, root) + ChildSystems(t, root)
  }

  /** Everything in the subtrees of the sectors `cs`. */
  function Below(t: Tables, cs: set<Id>): set<Id>
  {
    set c, x | c in cs && x in Subtree(t, c) :: x
  }

  lemma BelowAdd(t: Tables, cs: set<Id>, c: Id)
    ensures Below(t, cs + {c}) == Below(t, cs) + Subtree(t, c)
  {
    assert c in Subtree(t, c);
  }

  /** Taking one more child off the to-do set adds it to the ones done. */
  lemma DoneGrows(children: set<Id>, todo: set<Id>, c: Id)
    requires todo <= children && c in todo
    ensures children - (todo - {c}) == (children - todo) + {c}
  {
  }

  /** The part erased after the leaves and the child sectors `done`. */
  lemma ErasedSoFar(t: Tables, root: Id, done: set<Id>)
    requires Valid(t) && done <= ChildSectors(t, root)
    ensures DownClosed(t, Leaves(t, root) + Below(t, done))
    ensures Leaves(t, root) + Below(t, done) <= Subtree(t, root) - {root}
  {
    var S := Leaves(t, root) + Below(t, done);
    LeafChildrenInside(t, root);
    LeavesDownClosed(t, Leaves(t, root));
    forall x | x in Below(t, done)
      ensures x in Subtree(t, root) - {root}
    {
      var c :| c in done && x in Subtree(t, c);
      ChildSubtreeInside(t, root, c);
    }
    forall id | id in t.sectors && t.sectors[id].Some? && t.sectors[id].value in Below(t, done)
      ensures id in Below(t, done)
    {
      var c :| c in done && t.sectors[id].value in Subtree(t, c);
      SubtreeDownClosed(t, c);
    }
    forall id | id in t.futures && t.futures[id].parentId in Below(t, done)
      ensures id in Below(t, done)
    {
      var c :| c in done && t.futures[id].parentId in Subtree(t, c);
      SubtreeDownClosed(t, c);
    }
    forall id | id in t.systems && t.systems[id].sectorId in Below(t, done)
      ensures id in Below(t, done)
    {
      var c :| c in done && t.systems[id].sectorId in Subtree(t, c);
      SubtreeDownClosed(t, c);
    }
    DownClosedUnion(t, Leaves(t, root), Below(t, done));
  }

  /** A child not yet deleted shares nothing with what is erased so far. */
  lemma NextChildUntouched(t: Tables, root: Id, done: set<Id>, c: Id)
    requires Valid(t) && done <= ChildSectors(t, root) && c in ChildSectors(t, root) && c !in done
    ensures Subtree(t, c) !! Leaves(t, root) + Below(t, done)
  {
    ChildSubtreeAvoidsLeaves(t, root, c);
    forall x | x in Subtree(t, c) && x in Below(t, done)
      ensures false
    {
      var c' :| c' in done && x in Subtree(t, c');
      ChildSubtreesDisjoint(t, root, c, c');
    }
  }

  /** In the state where the leaves and the children `done` are erased, child `c` is still a sector. */
  lemma ChildStillThere(t: Tables, root: Id, done: set<Id>, c: Id)
    requires Valid(t) && done <= ChildSectors(t, root) && c in ChildSectors(t, root) && c !in done
    ensures var cur := Erase(t, Leaves(t, root) + Below(t, done));
      && Valid(cur) && c in cur.sectors && c !in cur.futures && c !in cur.systems && root < c < cur.nextId
      && Subtree(cur, c) == Subtree(t, c)
  {
    var removed := Leaves(t, root) + Below(t, done);
    ErasedSoFar(t, root, done);
    NextChildUntouched(t, root, done, c);
    EraseValid(t, removed);
    assert c in Subtree(t, c);
    SubtreeFrame(t, removed, c);
  }

  /** Deleting a sector whose subtree is unaffected by an earlier erasure adds that subtree to it. */
  lemma DeleteAfterErase(t: Tables, removed: set<Id>, c: Id)
    requires var cur := Erase(t, removed);
      c !in cur.futures && c !in cur.systems && Subtree(cur, c) == Subtree(t, c)
    ensures AfterDeleteSector(Erase(t, removed), c) == Erase(t, removed + Subtree(t, c))
  {
    DeleteSectorErasesSubtree(Erase(t, removed), c);
    EraseTwice(t, removed, Subtree(t, c));
  }

  /**
   * One turn of the loop over the child sectors: in the state where the
   * leaves and the children `done` are erased, deleting child `c` erases its
   * subtree as well.
   */
  lemma DeleteChildStep(t: Tables, root: Id, done: set<Id>, c: Id)
    requires var cur := Erase(t, Leaves(t, root) + Below(t, done));
      c !in cur.futures && c !in cur.systems && Subtree(cur, c) == Subtree(t, c)
    ensures AfterDeleteSector(Erase(t, Leaves(t, root) + Below(t, done)), c)
         == Erase(t, Leaves(t, root) + Below(t, done + {c}))
  {
    var removed := Leaves(t, root) + Below(t, done);
    DeleteAfterErase(t, removed, c);
    BelowAdd(t, done, c);
    assert removed + Subtree(t, c) == Leaves(t, root) + Below(t, done + {c});
  }

  /** Once the leaves and every child's subtree are erased, everything below `root` is. */
  lemma ChildrenCoverSubtree(t: Tables, root: Id)
    requires Valid(t)
    ensures Leaves(t, root) + Below(t, ChildSectors(t, root)) == Subtree(t, root) - {root}
  {
    ErasedSoFar(t, root, ChildSectors(t, root));
    forall x | x in Subtree(t, root) - {root}
      ensures x in Leaves(t, root) + Below(t, ChildSectors(t, root))
    {
      if x !in Leaves(t, root) {
        var c := BranchOf(t, root, x);
      }
    }
  }
}
