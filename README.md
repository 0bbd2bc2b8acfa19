# Galaxy objects of `tg_space_game`, modelled in Dafny

The game keeps its galaxy in five Postgres tables:

- `galaxy_objects` is a registry. It maps every id to its kind: star sector, sector future or star system.
- `star_sectors`, `star_sector_futures` and `star_systems` hold one concrete row per id.
  - Sectors form a tree through their parent ids.
  - A future is a placeholder for a sub-sector that has not been generated yet.
- `star_links` joins pairs of sibling objects.

`generate_star_sector` creates a sector and fills it. A sector with few stars gets star systems. A sector with many stars gets ten futures, each carrying a tenth of the stars and a smaller radius. In both cases the siblings are then linked by a link generator. `fulfill_star_sector_future` turns a future into a sector in place and fills it the same way. `delete_sector` removes a sector recursively: its futures and systems with their links, then each child sector, then the sector itself.

The model:

- The tables are the datatype `GalaxyTables.Tables`: maps from ids to rows, plus the two serial counters.
  - The store invariant `GalaxyTables.Valid` says three things:
    - every registered object has exactly one concrete row, of the registered kind;
    - every parent is an existing sector with a smaller id;
    - every link joins two registered siblings of the kinds it records.
- The database connection is the class `Store.GalaxyStore`. Its fields are the tables, and its methods update them in place.
  - Each method is proved against a specification function on `Tables` (`Expansion.CreateSpec`, `Expansion.FillSpec`, `Expansion.GenerateSpec`, `Expansion.FulfilSpec`, `Cascade.AfterDeleteSector`).
  - The properties of those functions are proved as lemmas.
- `delete_sector` is modelled as the same recursion over child sectors. Two facts make it terminate: ids are drawn from one increasing sequence, and parents are created before their children.
- The kind codec of `schema/types.rs` is modelled on bytes (`SchemaTypes`).
- The `From` conversions to `GalaxyObject` are in `Models`.
- The unordered link equality and hash of `models/star_link.rs` are in `StarLinks`. The `Hasher` is a class that records the words written to it.

Calls into code outside the core become parameters:

- `exp_weights` becomes a `weights: seq<nat>` argument.
- `generate_links` becomes a function argument `gen`. It is only assumed to link members of the list it is given (`LinkGeneration.KeepsLinksAmongSiblings`).

## Model

| member | source | states |
|---|---|---|
| SchemaTypes.ToSql | tg_space_game/src/schema/types.rs:18-27 | appends the kind's label to the output buffer, keeps what was there, never reports null, and the appended bytes decode back to the same kind |
| SchemaTypes.FromSql | tg_space_game/src/schema/types.rs:29-38 | a null value is `UnexpectedNull`; a success means the bytes are exactly that kind's label; any other byte string is `UnrecognizedVariant` and matches no label |
| SchemaTypes.RoundTrip | tg_space_game/src/schema/types.rs:18-38 | decoding the label written for a kind yields that kind |
| SchemaTypes.LabelInjective | tg_space_game/src/schema/types.rs:12-27 | two kinds have the same label exactly when they are the same kind |
| Models.FromSector | tg_space_game/src/models/galaxy_object.rs:9-16 | the handle of a sector has the sector's id and kind `Sector` |
| Models.FromFuture | tg_space_game/src/models/galaxy_object.rs:18-25 | the handle of a future has the future's id and kind `SectorFuture` |
| Models.FromSystem | tg_space_game/src/models/galaxy_object.rs:27-34 | the handle of a system has the system's id and kind `System` |
| Models.ConversionsDistinguishKinds | tg_space_game/src/models/galaxy_object.rs:3-34 | a sector, a future and a system with the same id convert to pairwise different handles, and each handle's kind decodes back from its label |
| StarLinks.New | tg_space_game/src/models/star_link.rs:24-31 | the new link's side A is the first handle and side B the second |
| StarLinks.NewFromSides | tg_space_game/src/models/star_link.rs:24-46 | rebuilding a link from its two sides gives back the same link |
| StarLinks.Eq | tg_space_game/src/models/star_link.rs:52-63 | two links are equal exactly when their sides are equal as unordered pairs (multisets) |
| StarLinks.EqIsSameOrReversed | tg_space_game/src/models/star_link.rs:52-63 | equality holds exactly when the sides match in the same or in reversed order |
| StarLinks.OrientationIndependent | tg_space_game/src/models/star_link.rs:24-63 | the link from a to b equals the link from b to a |
| StarLinks.EqIsEquivalence | tg_space_game/src/models/star_link.rs:52-63 | link equality is reflexive, symmetric and transitive |
| StarLinks.HashWords | tg_space_game/src/models/star_link.rs:67-85 | two words are hashed: the larger side hash first, then the smaller, and together they are the multiset of the two side hashes |
| StarLinks.HashOrderIndependent | tg_space_game/src/models/star_link.rs:67-85 | swapping the sides of a link does not change the words hashed |
| StarLinks.HashConsistentWithEq | tg_space_game/src/models/star_link.rs:52-85 | links that are equal hash the same words, as the `Hash`/`Eq` contract requires |
| StarLinks.Hash | tg_space_game/src/models/star_link.rs:67-85 | the hasher receives exactly the two words of `HashWords`, after what it already held |
| LinkGeneration.Zip | tg_space_game/src/galaxy_objects.rs:122-134 | pairs handles with weights up to the shorter length, position by position; every paired handle is one of the given handles |
| GalaxyTables.LinksTouching | tg_space_game/src/galaxy_objects.rs:230-238 | selects exactly the links with an endpoint among the ids, unchanged |
| GalaxyTables.LinksNotTouching | tg_space_game/src/galaxy_objects.rs:240-248 | keeps exactly the links with no endpoint among the ids, unchanged |
| GalaxyTables.LinksPartition | tg_space_game/src/galaxy_objects.rs:230-248 | the links kept and the links selected split the table, so the delete count is the number removed |
| GalaxyTables.EraseValid | tg_space_game/src/galaxy_objects.rs:240-292 | removing the rows and links of a set of ids that holds every child of its members keeps the store invariant |
| Cascade.DeleteSectorErasesSubtree | tg_space_game/src/galaxy_objects.rs:294-323 | on a sector or an unused id, the recursive delete removes exactly the subtree: every row, registry entry and link touching it, and nothing else |
| Cascade.DeleteSectorValid | tg_space_game/src/galaxy_objects.rs:294-323 | deleting a sector keeps the store invariant |
| Cascade.DeleteSectorLeavesNoTrace | tg_space_game/src/galaxy_objects.rs:294-323 | after the delete, no id of the subtree has a row, a registry entry or a link |
| Cascade.DeleteSectorKeepsRest | tg_space_game/src/galaxy_objects.rs:294-323 | ids outside the subtree keep all their rows, and links not touching the subtree stay |
| Cascade.DeleteSectorSparesOtherRoot | tg_space_game/src/galaxy_objects.rs:294-323 | deleting one root sector leaves the star systems of every other root sector in place |
| Cascade.DeleteMissingSectorIsNoOp | tg_space_game/src/galaxy_objects.rs:294-323 | deleting an id that is not registered changes nothing |
| Cascade.DeleteSectorOrphansLeafRow | tg_space_game/src/galaxy_objects.rs:294-323 | given a system or future id, the delete keeps that object's concrete row but drops its registry row, which breaks the store invariant |
| Cascade.DeleteSectorCheckedValid | tg_space_game/src/galaxy_objects.rs:294-323 | the corrected delete always keeps the store invariant, and it succeeds exactly when the id is neither a future nor a system |
| Expansion.SubStars | tg_space_game/src/galaxy_objects.rs:86-88 | each of the ten children gets a tenth of the stars |
| Expansion.StarsAmount | tg_space_game/src/galaxy_objects.rs:94-97 | the number of systems is the star count rounded half up, or zero for a negative count |
| Expansion.LinkTarget | tg_space_game/src/galaxy_objects.rs:90 | the requested link count is four times the stars, truncated, or zero when the stars are not positive |
| Expansion.SubRadius | tg_space_game/src/galaxy_objects.rs:150 | the child radius times the cube root of ten is the parent radius |
| Expansion.CreateEffect | tg_space_game/src/galaxy_objects.rs:54-72 | creation succeeds exactly when the parent is absent or an existing sector; on failure nothing changes and the error is a foreign-key violation; on success one fresh id is registered as a sector with the given parent |
| Expansion.CreateValid | tg_space_game/src/galaxy_objects.rs:54-72 | creating a sector keeps the store invariant |
| Expansion.FillLeafEffect | tg_space_game/src/galaxy_objects.rs:93-146 | with fewer than ten stars per child, filling adds `StarsAmount` new systems named `StarName` in the sector, registered as systems, and leaves every older row alone |
| Expansion.FillFutureEffect | tg_space_game/src/galaxy_objects.rs:148-204 | otherwise filling adds ten futures of the sector with a tenth of the stars and the reduced radius, registered as futures, and leaves every older row alone |
| Expansion.FillKeepsLinks | tg_space_game/src/galaxy_objects.rs:136-146 | filling keeps every existing link unchanged, the link count grows by the number of generated links, and every new link is one the generator produced |
| Expansion.FillStoresLinks | tg_space_game/src/galaxy_objects.rs:136-146 | every generated link is stored, the i-th one under the i-th fresh link id, so together with `FillKeepsLinks` the new links are exactly the generated ones |
| Expansion.FillNewLinks | tg_space_game/src/galaxy_objects.rs:122-146 | every added link joins two of the newly created children of the filled sector |
| Expansion.FillValid | tg_space_game/src/galaxy_objects.rs:78-208 | filling an existing sector keeps the store invariant |
| Expansion.GenerateEffect | tg_space_game/src/galaxy_objects.rs:210-221 | generation succeeds exactly when creation does; on success the registry grows by the sector plus its systems or its ten futures |
| Expansion.GenerateValid | tg_space_game/src/galaxy_objects.rs:210-221 | generating a sector keeps the store invariant |
| Expansion.FulfilEffect | tg_space_game/src/galaxy_objects.rs:18-52 | fulfilment succeeds exactly on a future; the future becomes a sector with the same id and parent, has no future row, and keeps none of its old links; a missing future is `NotFound` with nothing changed |
| Expansion.FulfilValid | tg_space_game/src/galaxy_objects.rs:18-52 | fulfilling keeps the store invariant |
| Expansion.FulfilTwiceFails | tg_space_game/src/galaxy_objects.rs:18-52 | a future can be fulfilled only once: a second attempt is `NotFound` and changes nothing |
| Lifecycle.GenerateAddsSubtree | tg_space_game/src/galaxy_objects.rs:210-221 | a generated sector has a fresh id larger than every old id, and every other new object is a system or a future directly under it |
| Lifecycle.GenerateKeeps | tg_space_game/src/galaxy_objects.rs:210-221 | generation keeps every old row and link unchanged, and no new link starts at an old object |
| Lifecycle.GenerateThenDelete | tg_space_game/src/galaxy_objects.rs:210-323 | deleting a freshly generated sector restores every table; only the two serial counters stay advanced |
| Lifecycle.GenerateThenDeleteCounts | tg_space_game/src/galaxy_objects.rs:210-323 | after generating and deleting a sector, the number of objects and of links is what it was before |
| Store.GalaxyStore.UpdateGalaxyObjectType | tg_space_game/src/galaxy_objects.rs:3-16 | succeeds exactly when the id is registered, and then changes only that entry's kind; otherwise `NotFound` and no change |
| Store.GalaxyStore.GetLinksForObjects | tg_space_game/src/galaxy_objects.rs:230-238 | returns exactly the links with an endpoint among the ids |
| Store.GalaxyStore.GetStarSectorChildrenFutures | tg_space_game/src/galaxy_objects.rs:223-228 | returns exactly the futures whose parent is the sector, with their stored fields |
| Store.GalaxyStore.DeleteLinksForObjects | tg_space_game/src/galaxy_objects.rs:240-248 | removes exactly the links `GetLinksForObjects` lists, and returns how many there were |
| Store.GalaxyStore.DeleteGalaxyObjects | tg_space_game/src/galaxy_objects.rs:250-254 | removes the registry entries of the ids, and returns how many of them existed |
| Store.GalaxyStore.DeleteSectorFutures | tg_space_game/src/galaxy_objects.rs:256-273 | removes the sector's futures with their links and registry entries, and nothing else |
| Store.GalaxyStore.DeleteSectorSystems | tg_space_game/src/galaxy_objects.rs:275-292 | removes the sector's systems with their links and registry entries, and nothing else |
| Store.GalaxyStore.DeleteSector | tg_space_game/src/galaxy_objects.rs:294-323 | the recursive delete leaves the tables as `AfterDeleteSector` says: the subtree is erased, see the `Cascade` lemmas |
| Store.GalaxyStore.DeleteChildSectors | tg_space_game/src/galaxy_objects.rs:303-311 | after the loop over child sectors, the erased ids are the sector's leaves plus every child's whole subtree |
| Store.GalaxyStore.DeleteSectorChecked | tg_space_game/src/galaxy_objects.rs:294-323 | the corrected delete: refuses a future or system id with `NotFound`, otherwise deletes as `delete_sector`, and keeps the store invariant |
| Store.GalaxyStore.CreateStarSector | tg_space_game/src/galaxy_objects.rs:54-72 | state and result are those of `CreateSpec`: a missing parent rolls the registry row back |
| Store.GalaxyStore.FillStarSector | tg_space_game/src/galaxy_objects.rs:78-208 | the tables become `FillSpec` of the old tables, and the store invariant holds after |
| Store.GalaxyStore.GenerateStarSector | tg_space_game/src/galaxy_objects.rs:210-221 | state and result are those of `GenerateSpec`, and the store invariant holds after |
| Store.GalaxyStore.FulfillStarSectorFuture | tg_space_game/src/galaxy_objects.rs:18-52 | state and result are those of `FulfilSpec`, and the store invariant holds after |

## Left out

- Postgres, diesel and the connection are not modelled: each query is a change to the in-memory tables.
- Concurrency and row locks are not modelled: operations run one at a time.
- Transactions are modelled as rollback of the whole state, including the two serial counters. Postgres does not roll sequences back, so a failed create does not burn an id in the model.
- Errors other than a missing row and the parent foreign key (connection failures, other constraint failures) are not modelled.
  - In particular, a fill whose sector was deleted in between is not modelled: the fill methods require the sector to exist.
- `f32` arithmetic is modelled with exact reals. Rounding error in `stars / 10`, `stars * 4` and `rad / cbrt(10)` is not captured.
  - The cube root of ten is the constant 2.1544347.
- Expansion.StarsAmount: models `round() as i32` for values that fit in `i32`. Saturation at `i32::MAX` is not modelled.
- A sector whose star count rounds to zero (fewer than 0.5 stars) gets no systems, and the generator is then called with an empty list. The model allows this and assumes nothing more of the generator in that case.
- Ids are unbounded naturals, so `i32` overflow of the serial sequences is not modelled.
- Negative ids, which `delete_sector` can receive from its caller, are not modelled. No row has one, so they behave like unused ids (`Cascade.DeleteMissingSectorIsNoOp`).
- `exp_weights` (in `tools.rs`) and `generate_links`, whose body is not among the source files, are not part of this model.
  - They enter as a weights argument and a generator argument.
  - Only one thing is assumed of the generator: it links members of the list it is given.
- Store.GalaxyStore.DeleteSector: the order in which child sectors are deleted is the order of a Dafny set, not the order of the query result. The final state does not depend on it.
- Migrations, foreign keys other than the parent references, and the binaries and tests of the repository are not part of this model.

## Findings

| source | as written | input that shows it | evidently intended | confidence | as-written member | corrected member |
|---|---|---|---|---|---|---|
| tg_space_game/src/galaxy_objects.rs:294-323 | `delete_sector` never checks that its id is a sector. Given a system or future id, it deletes that object's links and registry row but leaves its `star_systems` or `star_sector_futures` row behind | `delete_sector(id)` where `id` is a registered star system | refuse ids that are not sectors, so no concrete row is left without a registry entry | medium, not executed; assumes `star_systems` and `star_sector_futures` have no foreign key to `galaxy_objects` (such a key would make the registry delete fail and roll back) | Cascade.DeleteSectorOrphansLeafRow | Cascade.DeleteSectorCheckedValid |

Deleting an id that is not registered is not an error: `delete_sector` ignores how many rows its queries removed and returns success. The model does the same, and `Cascade.DeleteMissingSectorIsNoOp` proves that such a call changes nothing.
