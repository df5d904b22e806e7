# Verified models of the game's stateful algorithms

A block world game keeps many fast structures that have to agree with something simple: light maps
updated by floods, a suballocator for chunk meshes, fluids that settle cell by cell, indexes beside a
list of entities, a bounded queue of mesh work, lock-free queue counters, a ray stepping through
cells, and an integer square root. Each is modelled here in its own form and proved against the
simple thing.

**Light** (`LightGrid`, `LightTheory`, `LightRemoval`, `LightRegion`, `LightSections`, `LightFlares`, `LightEdits`,
`Sunlight`, `Lighting`, `LightUpdates`, `LightSeeding`, `LightCorridor`, `LightLimits`). A `Grid` is the
loaded cells, their height range, the opaque cells and whether the sky is open; light enters a cell from
a face neighbour, one level dimmer, unless the cell is opaque. A map is *exact* for its sources when it
is at least the sources, closed under that rule, and every level above a cell's own source has a
neighbour that feeds it; that is the same as giving each cell the best of source level minus path length
(`ExactIffBrightest`). `LightNeighborhood` is the class the two floods write to; `LightHost` is the
world around it, which takes nine columns out, floods them and puts them back.

Main results: a flood computes the least closed map whatever the order of its queue; nine columns around
the edited one lose nothing; the seeds of a newly loaded column suffice; removing light and flooding
again gives the map a recomputation from scratch gives, in every order of the queue, if and only if
three conditions hold on the state before the update (`AlwaysRecomputedIff`), and in the order that
occurred if and only if the third of them holds for the first cell handed on
(`IncrementalIsRecomputed`); and for every block edit of the four public updates there is the exact
condition under which sky or block light stays exact. Each condition can fail: `LightLimits` has the
worlds, made of whole loaded columns, in which a dimmer lamp beside a removed one is darkened for good, a
dim opaque emitter or a replaced one leaves stale light, and of three equal lamps the middle one's
removal leaves one side dark because the columns are taken again around the first queued cell.

A column stores light by sections, and a section may be missing. It reads as dark, and the first write
to it creates it, with sky light 15 in all of its cells when it lies at height 0 or above
(`src/world/chunk.rs:482-525`, `src/world/section.rs:549-559`). Block light is the flood all the same.
Sky light as it is seen stays as it was through a block update, and becomes the flood in a sky update, if
and only if no cell that the flood raises lies in such a section (`SkyFollows`, `Outcome`,
`FlaredIsNoFlood`). When it does not, the flood is still served to its end: every cell queued or lit one below
another has nothing left to give, and every other level it raised is full sky light of a section it created
(`Carries`, kept node by node by `FloodingStep`). Loading a column and opening a roof meet that condition or fail it
(`LoadedLight`, `SkyRemovedIsExact`); placing a block never creates a section (`SkyPlacedIsExact`). A
torch in the End fails it: `TorchInTheEnd`.

**Suballocator** (`FreeBlocks`, `Allocation`, `Compaction`, `FreeLists`, `AllocatorRuns`). `Books` is
the allocator's whole state: capacity, free blocks, live records by offset, the next generation. Free
blocks and live records tile the capacity after every operation; the free list is a function of the
live records; compaction's moves carry every live buffer to its new offset; a freed token never
validates again in any run, and one rebased at every compaction is valid exactly as long as nobody
frees its record.

**Fluids** (`FluidRules`, `FluidBlocks`, `FluidTheory`, `FluidQueues`, `FluidSettling`, `FluidWorlds`). The
rule is told twice, over directions and options and by the blocks around a cell, and the two are one. A field is
settled when a visit changes no cell. In a settled field a trail leads from every cell of the fluid to a
source or a waterlogged host, and terrain, hosts and sources determine the whole flow. Visits to a field
of one fluid, in any order that leaves no cell out for good, come to an end: from some moment on the
field is settled and stands still, and the order shows in the sources that appeared and in nothing else.
The class applies the rule, reports mutations that replay to the new field, and keeps every unsettled
cell waiting for a visit, save those missed by a change. A cell is missed exactly when it stands beside a
column of fluid that begins or ceases to stand on the changed cell, the fluid may flow there, and what
flows there follows that column (`MissedIff`); the schedule suffices if and only if there is none.
`StoneUnderColumnIsMissed` is a field in which there is one.

**Entities** (`Buckets`, `EntityIndex`, `Entities`). The manager's swap-remove vector and its three
indexes stand for a plain set of entities; after any run of operations a radius query over synced
entities is a scan of that set. The comment at `src/entity.rs:1029` speaks of a horizontal radius; the
code measures in all three directions, and the model follows the code.

**Mesh scheduler** (`MeshQueue`, `MeshSchedulers`). The map of pending work and the ordered set of
priorities shadow each other, and the bounded queue is a streaming selection of the nearest sections.

**Queue statistics** (`QueueStats`). Producers and consumers as a state machine over their atomic
steps: the counters are exact throughout a run exactly when what is outstanding always fits them. A
load may observe any value at all, so the result does not rest on the ordering of the loads. What the
channel holds is a function of the actions. The
comment at `src/perf.rs:665` says that a send is accounted after the channel accepts the item; the
code accounts it before, and the model follows the code.

**Ray traversal** (`RayTraversal`) over exact reals, and **fishing** (`Fishing`): the integer square
root and the launch velocity.

Ghost results of methods (`handed`, `around`, `low`, `ideal`, `carried`, `between`, `missed`, `trace`,
`clamped`) only name values the contracts speak of. `Option`, positions, sequences without
repetition and integer ranges live in `Options`, `Positions`, `Sequences` and `Integers`.

## Model

| member | source | states |
|---|---|---|
| LightTheory.ExactIffBrightest | src/lighting.rs:189-227 | Support and closure describe exactly the brightest-path map: the maximum over sources of level minus path length |
| LightTheory.FloodIsUnique | src/lighting.rs:189-227 | A start map and a set of queued cells have one flood: queue order and duplicates do not matter |
| LightTheory.FloodIsLeastClosed | src/lighting.rs:189-227 | With every cell that has something to give queued, the flood is closed and below every closed map above the start |
| LightTheory.FloodIsExact | src/lighting.rs:189-227 | Such a flood is the brightest-path map of the start levels |
| LightTheory.FloodIsFed | src/lighting.rs:206-225 | Every raised cell is one below a neighbour that was queued or raised |
| LightGrid.MapsAgree | src/lighting.rs:143-160 | Two maps that read alike at every loaded cell are the same map |
| LightSections.FlaredIsNoFlood | src/world/section.rs:549-559 | A map in which a missing section has been created with full sky light is not the flood of any queue |
| LightSections.SectionsAreCubes | src/world/section.rs:549-559 | Sections are cubes of sixteen blocks counted from height 0, and exactly those at height 0 or above start bright |
| LightFlares.FloodingStep | src/lighting.rs:195-226 | Whether or not sections are created, each node served keeps this: every cell that is queued at first or lit one below another waits or has nothing left to give, and every cell raised has such a cell one brighter beside it or was lit with its section |
| LightFlares.StoredAreServed | src/lighting.rs:195-226 | So after any flood every queued cell and every raised cell that lies in a section stored before, or outside the height, has nothing left to give |
| LightFlares.ServedFades | src/lighting.rs:75-93 | Levels fall with every step from the queued cells, also in such a flood |
| LightFlares.CarriesInWorld | src/lighting.rs:75-187 | So nine columns around them do what the whole world would |
| LightFlares.GivenCarries | src/lighting.rs:446-480 | Giving cells their levels, which may create sections, and flooding from them comes to the same as one flood from those levels |
| LightRemoval.DarkeningStops | src/lighting.rs:245-262 | The darkening flood ends only at cells as bright as the neighbour it came from, save around a node queued below its stored level |
| LightRemoval.HandOffCovers | src/lighting.rs:229-264 | From a closed map with any cells zeroed, every cell with something left to give after the darkening is queued for the flood |
| LightRemoval.LoneRemovalIff | src/lighting.rs:229-264 | A single removal at any level, in whatever terrain it leaves, gives the light of the sources it spared if and only if the level is the stored one or above, or a brighter neighbour restores the cell, or nothing the cell fed depended on it |
| LightRemoval.SparedSources | src/lighting.rs:229-264 | All the light a removal left can give is the light of the sources it left lit |
| LightRemoval.RemoveThenFlood | src/lighting.rs:189-264 | Zero any cells of an exact map and queue them at their levels or above: darkening and flooding give the exact map of the sources left lit, in the changed terrain |
| LightRemoval.RewriteStaysExact | src/lighting.rs:189-264 | Rewriting the light and sources of some cells and flooding gives the light of the new sources when what fed the others is restored |
| LightRemoval.BrighterNeighborRestores | src/lighting.rs:528-560 | A cell removed below its stored level is lit again by a neighbour brighter than it |
| LightRemoval.StrongSourcesSurvive | src/lighting.rs:247-254 | No source is darkened when each surviving one is at least as bright as every removed level |
| LightTheory.ExactIsUnique | src/lighting.rs:189-264 | A terrain and its sources have one exact map |
| LightTheory.FloodOf | src/lighting.rs:189-227 | Every start map and queue have a flood |
| LightTheory.Brightest | src/lighting.rs:189-227 | All sources have an exact map, the recomputation from scratch |
| LightRemoval.RestoringSources | src/lighting.rs:247-254 | Giving darkened sources back leaves the map exact exactly when it already has their levels |
| LightRemoval.RecomputationAgrees | src/lighting.rs:229-264 | The light of the sources left lit is the recomputation if and only if from one of those a path reaches every darkened source at its own level |
| LightLimits.WeakerEmitterIsLost | src/lighting.rs:247-254 | In a corridor of two lamps, removing the brighter one never gives the recomputed light, in whatever order cells are handed on |
| LightRegion.FloodStaysNear | src/lighting.rs:75-93 | A flood from a column or its face raises nothing further than 15 blocks away |
| LightRegion.FloodAroundColumn | src/lighting.rs:75-187 | Flooding nine columns and putting them back is flooding the whole world |
| LightRegion.DarkAroundColumn | src/lighting.rs:75-187 | Darkening nine columns zeroes the cells the whole world would lose, and all that is handed on lies inside |
| LightRegion.RetakenRegionIff | src/lighting.rs:339-349 | Flooding the columns taken again is flooding the world if and only if they hold every cell the world's flood raises, each with a feeder |
| LightRegion.RetakenIsExactIff | src/lighting.rs:339-349 | What it leaves is exact, for any sources, if and only if that holds and the world's flood is exact |
| LightRegion.QueuedNearbyRetakes | src/lighting.rs:339-349 | It holds when every queued cell lies in the middle column or touches it |
| LightRegion.LostInReachRetakes | src/lighting.rs:339-349 | It holds when the map was closed and the columns hold every lost and queued cell |
| LightEdits.PlacedEmitterIff | src/lighting.rs:495-502 | Overwriting any cell, opaque or not, source or not, with any emission and flooding is exact if and only if no neighbour could light it further, and the emission is at least the level it overwrites or nothing that level fed depended on it |
| LightEdits.OpenEmitter | src/lighting.rs:495-502 | Over a cell that was open an emission no dimmer is exact, and a dimmer one that lets light in is not |
| LightEdits.RefilledIff | src/lighting.rs:548-575 | When zeroing a cell and refilling it from its brightest neighbour is exact without its source |
| LightEdits.FloodKeepsItsSource | src/lighting.rs:495-502 | A flood from one cell leaves that cell's level |
| LightEdits.OpenedCell | src/lighting.rs:548-575 | Refilling an opened cell from its brightest neighbour and flooding is exact |
| Sunlight.SunlitIsBrightest | src/lighting.rs:372-391 | In every exact map exactly the cells with open sky above have full sky light, and opaque cells none |
| Sunlight.ShadedSources | src/lighting.rs:393-425 | The run zeroed below a placed block is exactly the sky light sources it shades |
| Sunlight.OpenedToSky | src/lighting.rs:446-463 | Filling the opened run with full light and flooding is the exact sky light of the opened terrain |
| Lighting.LightNeighborhood.GetLight | src/lighting.rs:143-160 | Outside the taken columns, below them and in missing sections dark, above them full sky where the sky is open |
| Lighting.LightNeighborhood.SetLight | src/world/chunk.rs:488-525 | A write that changes a level of a taken cell creates its section when that is missing, and one at height 0 or above with sky light 15 in all its cells; elsewhere, or when the level is the one read, nothing happens; what changed is noted |
| Lighting.MeshColumnsTouch | src/lighting.rs:44-62 | The meshes marked for a change are those of the sixteen-block columns of the cell and of its four neighbours |
| Lighting.WriteGives | src/world/chunk.rs:488-525 | A write gives its cell the level and raises nothing else but the cells of the section it creates |
| Lighting.LightNeighborhood.Propagate | src/lighting.rs:189-227 | For every queue the least map above the stored one in which no queued or raised cell has anything to give: for block light always, for sky light if and only if that map raises no cell of a missing section at height 0 or above, and else such a section is created bright; in either case the queue has been served to its end (`Carries`), and every changed cell, save those lit with their section, is noted with the meshes that read it |
| Lighting.LightNeighborhood.RemoveLight | src/lighting.rs:229-264 | Zeroes exactly the cells reached along falling levels, hands on exactly their lit border, and keeps the queue it was given |
| Lighting.FloodRunStep | src/lighting.rs:198-225 | One node of the flood, also when a write is a no-op and the node is pushed all the same, keeps the flood's invariant or creates a bright section that the flood was bound to enter |
| Lighting.ServedShrinks | src/lighting.rs:198-225 | And it lowers the potential, so the flood ends whether or not it creates sections |
| Lighting.RemoveStep | src/lighting.rs:238-262 | One node of the darkening keeps the invariant and lowers the number of lit cells or the queue |
| LightUpdates.LightHost.Take | src/lighting.rs:76-93 | The neighbourhood is the nine columns' part of the world |
| LightUpdates.LightHost.Restore | src/lighting.rs:95-115 | Putting it back overwrites that part and notes the changed columns for saving |
| LightUpdates.LightHost.RunPropagate | src/lighting.rs:266-276 | Floods nine columns and leaves the rest and the other kind of stored level alone; block light reaches the flood, sky light does if and only if the flood raises no cell of a missing section at height 0 or above; in either case the queue is served to its end, there and, from cells in or touching the middle column, in the whole world; every changed cell, save those lit with their section, is noted |
| LightUpdates.LightHost.RunRemove | src/lighting.rs:282-293 | Darkens nine columns likewise |
| LightUpdates.LightHost.PropagateLight | src/lighting.rs:306-349 | The same with the nine columns around the first queued cell |
| LightUpdates.LightHost.RemoveLight | src/lighting.rs:318-370 | The nine columns are those around the first removed cell |
| LightUpdates.LightHost.UpdateBlockLightAfterPlaced | src/lighting.rs:485-525 | The new block light in each of the branches; sky light as it is seen stays the same if and only if no cell of a missing section at height 0 or above was lit; every changed cell is noted for saving, and all but those written directly for meshing |
| LightUpdates.LightHost.UpdateBlockLightAfterRemoved | src/lighting.rs:528-575 | The new block light in each of the branches, and sky light and notes likewise |
| LightUpdates.LightHost.UpdateSkyLightAfterPlaced | src/lighting.rs:372-425 | What the new sky light ought to be in each of the branches, that it is reached exactly when that enters no missing section at height 0 or above, and what the flood has carried in either case; every changed cell, save those lit with their section, is noted for saving, and all but those written directly for meshing |
| LightUpdates.LightHost.UpdateSkyLightAfterRemoved | src/lighting.rs:430-480 | The same after a removal: the open run is given full light, or the cell its brightest neighbour less one, with whatever sections that creates, and the flood from there is served to its end |
| LightUpdates.LightHost.BrightestNeighbor | src/lighting.rs:464-480 | The brightest of the six neighbours |
| LightUpdates.PutBackOutcome | src/lighting.rs:95-115 | A flood of nine columns, put back, reaches the whole world's flood of them exactly when that enters no missing section that starts bright |
| LightUpdates.WriteOutcome | src/world/chunk.rs:488-525 | So does a single write |
| LightUpdates.OutcomeTwice | src/lighting.rs:446-480 | And so do two updates one after the other that only raise light |
| LightUpdates.SkyKeptIff | src/world/chunk.rs:514-525 | Creating the sections that an update lights leaves sky light as it is seen if and only if no cell raised lies in a missing section that starts bright |
| LightUpdates.DarkenedWorld | src/lighting.rs:282-293 | Darkening nine columns from nodes of one column darkens the whole world, with the border handed on in reach |
| LightUpdates.RelitIff | src/lighting.rs:229-370 | What darkening, taking columns again and flooding leave is exact, for any sources, if and only if those columns recover all the light and the world's flood would be exact |
| LightUpdates.BorderRecovers | src/lighting.rs:339-349 | When the columns around every border cell, seen before the call, recover all the light, no queue order matters |
| LightUpdates.NarrowBorderRecovers | src/lighting.rs:339-349 | They do when the border lies within a block of the column of each of its cells |
| LightUpdates.LostNearBorderRecovers | src/lighting.rs:339-349 | They do when the map was closed and they hold every lost cell and the border |
| LightUpdates.SomeRelit | src/lighting.rs:229-370 | The whole border, handed on in any order, has an outcome |
| LightUpdates.RelitAlwaysIff | src/lighting.rs:229-370 | What the update leaves is exact in every order of the queue, for any sources, if and only if the world's flood would be exact and the columns around every border cell, seen before the call, recover all the light |
| LightUpdates.RelightIsExact | src/lighting.rs:229-370 | Removals at the stored levels or above leave the light of the sources spared if and only if the columns taken again recover all the light |
| LightUpdates.RelightAlwaysIff | src/lighting.rs:229-370 | They do in every order if and only if the columns around every border cell, seen before the call, recover it |
| LightUpdates.LoneRelightIsExact | src/lighting.rs:229-370 | A single removal at any level does if and only if they recover all the light and the level suits what the cell fed |
| LightUpdates.LoneRelightAlwaysIff | src/lighting.rs:229-370 | In every order if and only if the columns around every border cell do and the level suits what the cell fed: by the state before the call alone |
| LightUpdates.IncrementalIsRecomputed | src/lighting.rs:229-370 | The incremental result of one removal is the recomputation from scratch if and only if those two hold and every darkened source is reached at its own level |
| LightUpdates.AlwaysRecomputedIff | src/lighting.rs:229-370 | In every order it is the recomputation from scratch if and only if the level suits what the cell fed, every darkened source is reached at its own level, and the columns around every border cell recover all the light: by the state before the call alone |
| LightUpdates.PlacedIsExact | src/lighting.rs:485-525 | When block light is exact after placing a block, in every branch |
| LightUpdates.RemovedIsExact | src/lighting.rs:528-575 | When block light is exact after a removal, whatever emitted, whatever emission the caller names and whatever stays |
| LightUpdates.SimpleRemovals | src/lighting.rs:528-547 | An emission named no lower than the source, with the cell open afterwards or opaque before, always suits |
| LightUpdates.SkyPlacedIsExact | src/lighting.rs:372-425 | When the sky light is that of the new terrain after placing a block, in every branch; nothing is raised, so no missing section is written to |
| LightUpdates.SkyRemovedIsExact | src/lighting.rs:430-480 | Removing a block leaves exactly the sky light of the opened terrain if and only if that light enters no missing section at height 0 or above |
| LightLimits.RetakingCanLoseLight | src/lighting.rs:344-348 | In a tunnel with three lamps, in whichever order the two ends of the darkness are handed on, the light is not exact |
| LightLimits.TunnelHost | src/lighting.rs:76-93 | That tunnel and its light are a world of whole columns |
| LightLimits.TunnelIsRelit | src/lighting.rs:339-370 | Either order can be handed on, and has an outcome |
| LightLimits.PairIsRelit | src/lighting.rs:229-264 | The update of the two lamps has an outcome |
| LightLimits.ReplacedEmitterIsRemoved | src/lighting.rs:538-555 | So has that of the replaced emitter |
| LightLimits.EndColumn | src/dimension.rs:655-677 | A dark column of the End whose upper section, all air, is missing is such a world |
| LightLimits.TorchInTheEnd | src/world/chunk.rs:514-525 | A torch placed below the missing section gives all of it full sky light |
| LightLimits.DimTableLeavesStaleLight | src/lighting.rs:495-502 | An opaque emitter of level 7 placed where the light is 12 leaves stale light |
| LightLimits.ReplacedEmitterLeavesStaleLight | src/lighting.rs:538-555 | So does an emitter of level 7 in light of 12 replaced by an opaque block |
| LightCorridor.CorridorIsExact | src/lighting.rs:189-227 | When levels along a corridor are its exact light |
| LightSeeding.NeighborNeedsPropagation | src/lighting.rs:595-608 | True exactly for a cell that could light a neighbour |
| LightSeeding.SeedColumn | src/lighting.rs:691-820 | Scanning stored sections, and of the neighbours the shared faces alone, queues every cell of them with something to give, and no other |
| LightSeeding.PropagateChunkLighting | src/lighting.rs:827-878 | The seeds cover every edge touching the new column and hold only cells with something to give; block light becomes the whole world's flood from them, and sky light does if and only if neither flood raises a cell of a missing section at height 0 or above; in either case the sky light queue is served to its end before block light creates sections with theirs; every changed cell, save those lit with their section, is noted for saving and meshing |
| LightSeeding.SeedingCloses | src/lighting.rs:827-878 | When every edge lacking light touches the new column, the flood from the seeds is the one map that closes the light of the whole world and is the least that does |
| LightSeeding.LoadedLight | src/lighting.rs:827-878 | Then block light is exact afterwards, and sky light if and only if neither flood raises a cell of a missing section at height 0 or above |
| LightSeeding.FloodBoth | src/lighting.rs:858-878 | Both floods over one taking of the nine columns, the second reading the sections the first created |
| LightSeeding.BothCarried | src/lighting.rs:858-878 | What the sky light comes to when sections are created: its own flood served to its end, and then full sky light in each section at height 0 or above that block light creates |
| FreeBlocks.CoalescedIsCanonical | src/chunk_render.rs:853-915 | Two coalesced lists that cover the same addresses are the same list |
| FreeBlocks.Inserted | src/chunk_render.rs:885-886 | Inserting a block covers its addresses and what was covered before |
| FreeBlocks.Coalesce | src/chunk_render.rs:887-901 | The index-driven loop merges touching blocks, covers the same addresses, and leaves none touching |
| Allocation.FreeIsDetermined | src/chunk_render.rs:745-915 | The free list is a function of the live records: no history shows in it |
| Allocation.AllocateTiles | src/chunk_render.rs:745-800 | Taking the head of a block keeps the tiling |
| Allocation.ReleaseCheckPasses | src/chunk_render.rs:853-884 | For a live record the overlap and overflow checks cannot fail |
| Allocation.ReleaseTiles | src/chunk_render.rs:853-915 | Releasing a record keeps the tiling |
| Allocation.GrowTiles | src/chunk_render.rs:917-960 | Growing keeps the tiling |
| FreeLists.FreeList.constructor | src/chunk_render.rs:673-687 | A new list is one free block, or none |
| FreeLists.FreeList.AllocateOwned | src/chunk_render.rs:745-800 | First fit, in each error case too; the bounds checks on the block found cannot fail |
| FreeLists.FreeList.ValidateOwned | src/chunk_render.rs:838-851 | Which error a token gets, and that it validates exactly when its record is live |
| FreeLists.FreeList.ReleaseRecord | src/chunk_render.rs:853-915 | Releasing a live record succeeds and leaves valid books without it |
| FreeLists.FreeList.DeallocateOwned | src/chunk_render.rs:823-836 | A valid token is released; an invalid one changes nothing |
| FreeLists.FreeList.Deallocate | src/chunk_render.rs:802-821 | Release by range, in each error case too |
| FreeLists.FreeList.Resize | src/chunk_render.rs:917-960 | Growth frees the added addresses; shrinking is ignored |
| FreeLists.FreeList.Compact | src/chunk_render.rs:965-1007 | Live records are packed in order, the moves are those that change an offset, and one block is left free |
| Compaction.DestinationsAreClear | src/chunk_render.rs:965-1007 | No move's destination covers the source of a later one |
| Compaction.MovesPreserveContents | src/chunk_render.rs:965-1007 | Applying the moves in order carries every live allocation's contents to its new offset |
| Compaction.PackedTiles | src/chunk_render.rs:965-1007 | The packed books are valid |
| Compaction.CompactionConservesUnits | src/chunk_render.rs:965-1007 | Compaction keeps the number of free units |
| Compaction.CountersAreConsistent | src/chunk_render.rs:693-731 | The checked sum of free units never fails and is the capacity less the addresses held |
| Compaction.RebasingKeepsValidity | src/chunk_render.rs:965-1007 | Rebasing tokens by the moves keeps exactly the valid ones valid |
| AllocatorRuns.GoneStaysGone | src/chunk_render.rs:672-1007 | In any run a generation without a live record never has one again |
| AllocatorRuns.FreedNeverReturns | src/chunk_render.rs:823-851 | A freed token never validates again in any run, whatever reuses its offset |
| AllocatorRuns.IssuedIsNeverBelow | src/chunk_render.rs:965-1007 | A record only ever moves down from the offset its token was issued for |
| AllocatorRuns.FollowedIsValid | src/chunk_render.rs:672-1007 | In any run a token rebased at every compaction validates if and only if no step has freed its record |
| AllocatorRuns.AllocateThenFree | src/chunk_render.rs:745-836 | Allocating and freeing restores the free list and the live records exactly |
| AllocatorRuns.FreeOrderDoesNotShow | src/chunk_render.rs:853-915 | Freeing the same allocations in any two orders ends in identical books |
| AllocatorRuns.CompactedAllocates | src/chunk_render.rs:745-1007 | After compaction an allocation succeeds exactly when it is non-empty, fits the free units and a generation is left |
| FluidRules.DesiredIsUnique | src/fluid.rs:171-233 | The surroundings determine what flows into a cell |
| FluidRules.DesiredExists | src/fluid.rs:171-233 | Something always does, or nothing |
| FluidBlocks.DesiredFlowsIn | src/fluid.rs:171-272 | The rule over directions, options and counts asks for exactly what the blocks say: falling fluid below fluid, still water where two still ones meet over a solid, else one level more than the least below seven that runs beside the cell, a falling one only on a solid |
| FluidBlocks.VisitedByBlock | src/fluid.rs:95-169 | What a visit makes of each block: still fluid, solids and waterlogged slabs stay; flowing fluid takes the desired flow or dries; air and passable blocks are entered; where the fluids meet a lava source becomes obsidian, a water source stone, flowing fluid cobblestone |
| FluidTheory.FluidHasAnOrigin | src/fluid.rs:95-272 | No orphaned fluid: in a settled field a finite trail, up from a falling cell and sideways to one level lower, ends at a source or waterlogged host |
| FluidTheory.FlowCarriesOver | src/fluid.rs:95-233 | Flow of a settled field up to a level is flow of every settled field on the same ground |
| FluidTheory.SettledFlowIsUnique | src/fluid.rs:95-272 | Two settled fields with the same terrain, hosts and sources agree on every cell's fluid, level and falling flag |
| FluidWorlds.FluidWorld.DesiredFlow | src/fluid.rs:171-233 | The loop over the neighbours computes what the rule asks for |
| FluidWorlds.FluidWorld.CountSources | src/fluid.rs:185-200 | The number of horizontal directions in which a water source lies |
| FluidWorlds.FluidWorld.SetCell | src/fluid.rs:274-294 | Block, level and falling flag are written together and the surroundings scheduled |
| FluidWorlds.FluidWorld.ScheduleNeighbors | src/chunk_manager/mod.rs:430-453 | The cells within one step, in height, are pushed in order at the ends of both queues, each unless it waits already |
| FluidWorlds.AllowedStands | src/fluid.rs:56-63 | A position is allowed exactly when it stands in one of the sixteen-block columns given, or none are |
| FluidWorlds.FluidWorld.UpdateCell | src/fluid.rs:95-169 | One visit, by blocks: the flow computed is the one the surroundings ask for, the cell becomes what its block says, nothing else changes, the cell and its neighbours are pushed on both queues in order exactly when it changed, and a report says so; water hardens a lava source to obsidian and flowing lava to cobblestone, lava a water source to stone and flowing water to cobblestone |
| FluidWorlds.FluidWorld.TickFluidsInColumns | src/fluid.rs:29-93 | Queued cells are visited in order until the limit or the end of the queue; the mutations reported, replayed in order, give the new cells; only loaded cells in the sixteen-block columns allowed change; every unsettled cell waits, or was known, or was skipped, or was missed by one of the changes, and those are given exactly |
| FluidQueues.ChangeUnsettles | src/fluid.rs:95-233 | A change unsettles only cells that are then scheduled, or that stand beside a falling column which began or ceased to stand on the changed cell |
| FluidQueues.MissedIff | src/fluid.rs:95-272 | A cell that was settled and is not scheduled is unsettled by a change if and only if it stands beside a column of fluid that begins or ceases to stand on the changed cell, the fluid may flow there but is not there for good, and nothing above, no infinite source and no other neighbour as low decides what flows there |
| FluidQueues.ScheduleSufficesIff | src/chunk_manager/mod.rs:430-460 | Every cell that a change unsettles is scheduled if and only if no settled cell outside the schedule is missed |
| FluidQueues.AroundIsNear | src/chunk_manager/mod.rs:430-453 | What a change schedules are the cells within one step, each once and the cell itself first |
| FluidQueues.DrainedIsSettled | src/fluid.rs:95-169 | A queue run dry with nothing missed leaves a settled field |
| FluidQueues.StoneUnderColumnIsMissed | src/fluid.rs:263-272 | A settled field in which stone set under a falling column leaves an unsettled cell that nothing schedules |
| FluidSettling.SourcesSettle | src/fluid.rs:185-200 | In every run of visits to a finite field of one fluid there are from some moment on no new sources |
| FluidSettling.LevelLocks | src/fluid.rs:95-233 | Once the layers above and the levels below one are the same for good, a round of visits to every cell makes that level the same for good |
| FluidSettling.FairVisitsSettle | src/fluid.rs:95-233 | However visits to a finite field of one fluid are ordered, if no cell is left out for good then from some moment on the field is settled and nothing changes |
| FluidSettling.OrderShowsInSources | src/fluid.rs:95-233 | Two such runs from one field that end with the same sources end with the same flow in every cell |
| Buckets.RemoveMatches | src/entity.rs:955-979 | Retaining all but one id in its bucket, and dropping an empty bucket, keeps the buckets sound |
| Buckets.MoveMatches | src/entity.rs:844-855 | Moving an id between buckets keeps them sound |
| Buckets.MatchIsDetermined | src/entity.rs:796-820 | As sets the buckets are a function of the tags |
| EntityIndex.WindowHoldsTheRadius | src/entity.rs:1035-1048 | An entity within the radius stands in a chunk the query looks at, saturating casts included |
| EntityIndex.ChunksAreSixteenWide | src/entity.rs:1035-1042 | A chunk is sixteen blocks wide, and the first and the last hold what 32-bit chunk numbers cannot reach |
| EntityIndex.PushedIsIndexed | src/entity.rs:893-927 | The four index updates of an insert are sound if and only if the id is new |
| EntityIndex.DroppedIsIndexed | src/entity.rs:947-982 | Those of a swap_remove are sound, also for an entity moved since its last sync |
| EntityIndex.RechunkedIsIndexed | src/entity.rs:830-858 | Those of a sync are sound and leave nothing lagging for that id |
| EntityIndex.SwapRemovedHolds | src/entity.rs:948-948 | swap_remove takes out one entity and keeps the others |
| Entities.EntityManager.Spawn | src/entity.rs:893-907 | A new entity under a fresh id |
| Entities.EntityManager.InsertIndexedEntity | src/entity.rs:911-927 | The manager stays valid if and only if the caller's id is new; the next id stays above it |
| Entities.EntityManager.SwapRemove | src/entity.rs:947-982 | Exactly that entity goes, and all indexes stay exact |
| Entities.EntityManager.RemoveById | src/entity.rs:984-990 | The entity of that id goes, if there is one |
| Entities.EntityManager.Retain | src/entity.rs:992-1004 | What passes the test stays, and each entity is asked about once |
| Entities.EntityManager.GetById | src/entity.rs:879-883 | Finds the entity of an id exactly when there is one |
| Entities.EntityManager.Move | src/entity.rs:885-891 | A position changed in place; the entity lags exactly when it left its recorded chunk |
| Entities.EntityManager.SyncEntityPosition | src/entity.rs:830-858 | That id no longer lags |
| Entities.EntityManager.SyncEntityPositions | src/entity.rs:861-865 | Those ids no longer lag |
| Entities.EntityManager.SyncPositions | src/entity.rs:869-877 | Nothing lags |
| Entities.EntityManager.RebuildIndexes | src/entity.rs:796-820 | On a valid manager a rebuild gives the same id index and, as sets, the same type buckets; with nothing lagging the same chunk buckets too |
| Entities.IndexesAgree | src/entity.rs:796-820 | Two sound sets of indexes of the same entities agree but for order inside buckets |
| Entities.EntityManager.QueryRadius | src/entity.rs:1031-1049 | Each entity within the radius whose recorded chunk is looked at, once, and no other; with nothing lagging exactly those in the closed ball, height counted, which is the centre for a negative radius |
| Entities.EntityManager.Apply | src/entity.rs:796-1004 | Every operation acts on the manager as on a plain set of entities |
| Entities.Replay | src/entity.rs:796-1004 | So does every run, and only ids moved and not synced since can lag |
| Entities.UnsyncedIff | src/entity.rs:830-877 | An id is unsynced exactly when it was moved and no later operation synced or removed it |
| Entities.ReplayAndQuery | src/entity.rs:1031-1049 | With every moved id synced, a query after any run finds exactly the entities of the plain set in the ball |
| MeshQueue.SectionDistance | src/chunk_schedule.rs:149-153 | The squared distance in chunks, exact unless a coordinate difference is beyond what the wide squares hold |
| MeshQueue.LessComesBefore | src/chunk_schedule.rs:36-36 | Priorities ascend with the squared distance, then with the x, section and z coordinates |
| MeshQueue.EnqueuedJoins | src/chunk_schedule.rs:49-78 | Only a section new to a queue of 16384 makes one leave, and that is no nearer than any that stays |
| MeshQueue.EnqueueKeeps | src/chunk_schedule.rs:49-78 | One enqueue keeps the queue the nearest distinct sections |
| MeshQueue.RunHoldsNearest | src/chunk_schedule.rs:49-78 | After any run of enqueues from one place the queue holds exactly the nearest distinct sections that fit, each with its latest work: no held section is farther than one not held, ties going by coordinates |
| MeshSchedulers.SectionMeshScheduler.Enqueue | src/chunk_schedule.rs:49-78 | Latest wins; on overflow the farthest goes; map and priorities stay in bijection |
| MeshSchedulers.SectionMeshScheduler.EvictFarthest | src/chunk_schedule.rs:71-76 | The section that leaves is at least as far as every one that stays |
| MeshSchedulers.SectionMeshScheduler.PopNearest | src/chunk_schedule.rs:79-90 | Of the sections in view one of the least squared distance, ties going by coordinates, and none only when none is in view |
| MeshSchedulers.SectionMeshScheduler.Remove | src/chunk_schedule.rs:103-110 | One section's work goes from both |
| MeshSchedulers.SectionMeshScheduler.RemoveChunk | src/chunk_schedule.rs:111-122 | A column's work goes, pending and in flight, and no other |
| MeshSchedulers.SectionMeshScheduler.MarkInFlight | src/chunk_schedule.rs:91-93 | The work becomes the one in flight for its section |
| MeshSchedulers.SectionMeshScheduler.Complete | src/chunk_schedule.rs:94-102 | A completion counts exactly when it is the one in flight |
| MeshSchedulers.SectionMeshScheduler.Reprioritize | src/chunk_schedule.rs:126-137 | The same work with distances from the new place; nothing is evicted |
| QueueStats.NeverClamps | src/perf.rs:726-735 | While the counters are exact the saturating subtraction never clamps |
| QueueStats.StepKeepsExact | src/perf.rs:575-600 | An atomic step keeps the counters exact if and only if what is then outstanding fits them |
| QueueStats.RunIsExact | src/perf.rs:575-735 | In every interleaving the counters are exact throughout if and only if what is outstanding always fits them |
| QueueStats.NeverUnderCounts | src/perf.rs:666-713 | No consumer receives what the counters have not seen, and at rest the counters are the channel's contents |
| QueueStats.ChannelIsFifo | src/perf.rs:666-713 | In every run the channel holds what was sent and not yet received, in order, by the actions alone: nothing is lost, doubled, changed or overtaken, and no refused item gets in |
| QueueStats.NeverBlocked | src/perf.rs:726-735 | No thread waits for another: each can take its next step whatever the counters hold, a compare-exchange may fail at any time, and it succeeds exactly when the counter is as it was read |
| QueueStats.OverflowIsNotForgotten | src/perf.rs:726-735 | A run in which the byte counter wraps, a deduction clamps, and the counter stays wrong at rest |
| RayTraversal.AxisStarts | src/interaction.rs:104-125 | The first boundary along an axis is where the ray leaves the first cell |
| RayTraversal.NudgedIsFollowed | src/interaction.rs:84-100 | A component of magnitude 0.00000001 or more is followed as it is, any other as that with its sign, zero upward |
| RayTraversal.AxisHolds | src/interaction.rs:104-180 | Between entering and leaving, the ray stays in the closed cell |
| RayTraversal.PiercedIsVisited | src/interaction.rs:130-181 | Every cell whose interior the ray pierces is visited, at that parameter |
| RayTraversal.PiercedInOrder | src/interaction.rs:130-181 | Cells are visited in the order in which they are pierced |
| RayTraversal.VisitedOnce | src/interaction.rs:130-181 | No cell is visited twice |
| RayTraversal.TraceIsDetermined | src/interaction.rs:130-181 | The ray alone determines the cells visited and when: where it leaves a cell along several axes at once, z is crossed first, then y |
| RayTraversal.TraceLength | src/interaction.rs:130-181 | The number of cells is at most linear in the parameter reached |
| RayTraversal.Raycast | src/interaction.rs:77-184 | The first cell along the ray that stops it, with its normal or the face toward the cell before, in plain coordinates and, for a direction without tiny components, on that direction itself; nothing pierced before it stops the ray; none only when no cell pierced within the limit does; linear number of steps |
| Fishing.IntegerSqrt | src/fishing.rs:80-94 | The exact integer square root of every 64-bit value; no addition saturates and the final clamp changes nothing |
| Fishing.NextDigit | src/fishing.rs:85-92 | One digit of the root |
| Fishing.LaunchVelocity | src/fishing.rs:45-60 | A velocity exists if and only if the squared length is from 250000 to 1210000; it follows the look, component by component, and without the 3000 upward its length is between 13998 and 14028 |
| Fishing.SpeedBounds | src/fishing.rs:51-58 | Truncation and integer root together miss the speed 14000 by less than 28 |
| Fishing.StretchedFits | src/fishing.rs:56-58 | The conversions to 32 bits never fail |

## Left out

- RelightIsExact, LoneRelightIsExact, IncrementalIsRecomputed, PlacedIsExact, RemovedIsExact and SkyPlacedIsExact name the first cell handed on, for the order that occurred; the order in which the darkening queue yields it is left open, and the lemmas named `Always` give the condition for every order by the state before the call.
- StrongSourcesSurvive: goes one way; the exact condition is `RecomputationAgrees`.
- Take: columns are moved out of the world in the code and copied here, so that a column is briefly missing from the world is not captured.
- LightHost edits light only; blocks are edited elsewhere before light is updated, so the terrain is constant in the class and a lemma relates the grids before and after an edit.
- Sections are stored or missing (`Section`, `Sections`); palettes, nibble arrays and the dropping of a section that has become empty are not part of this model.
- Retain: the test is a pure predicate; a closure with state of its own is not modelled.
- QueryRadius: positions are reals, so f32 rounding and NaN are not modelled.
- Spawn: ids are unbounded; the 2^64-th entity is not modelled.
- Entity pose, physics, save data, scratch buffers, spatial revision and checksum epochs are not part of this model; counting by type only reads the type buckets proved sound.
- PopNearest: coordinate differences are unbounded, so the overflow of a 32-bit difference or of its absolute value is not modelled.
- `requeue` and `clear` of the scheduler call what is modelled or empty the collections.
- UpdateCell: plants above a changed cell are not broken and chunks are not marked dirty for meshing; the settled-field theorems do not need either.
- TickFluidsInColumns: leaves out the same two.
- FluidHasAnOrigin, the uniqueness of settled flow and FairVisitsSettle are about fields with one fluid; where water meets lava only the single visit is specified.
- QueueStats leaves out the oldest-item fields and `reset`, documented as conservative under races, and the drop counter; each receive deducts the size of the item it received.
- Raycast: arithmetic is exact, cells are unbounded integers, and the target policy with the shape's intersection is one function from a cell to a hit; rays with a component below the source's epsilon are the nudged rays the source follows.
- Fishing loot rolls and bite timing are hashes and tables.
- Rendering, windowing, audio, particles, menus, networking, saving, threads, world generation, noise, and the tables and short state machines of crafting, loot, furnaces and game rules are not part of this model.
