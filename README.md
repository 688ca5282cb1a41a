# Parcel grid and default generator of parcels2

parcels2 is a Bukkit plugin that divides a world into a grid of square
parcels separated by paths. The default generator decides where each parcel
lies, builds the terrain (floor, walls around each parcel, paths between
them) chunk by chunk, and finds which parcel a world column belongs to. Its
block manager also runs bulk operations on one parcel: setting its biome,
clearing it back to a flat floor, and applying a caller's operation to every
block.

The model has six modules:

- `Blocks`: the option type and the block types that the other modules share.
- `KotlinInt`: Kotlin's truncating `/` and `%` on `Int`, and `umod`, the
  remainder that is never negative. `umod` is proved equal to the floor
  remainder.
- `Regions`: block and column positions and boxes of blocks. It also defines
  the two orders in which a region traversal visits a box: `DOWNWARD` and
  `UPWARD`, each one horizontal layer at a time.
- `ParcelGrid`: the generator options and the tiling constants. It holds the
  map from a parcel id to its bottom corner and back again (the locator), and
  the terrain each world column gets. It also holds the home and spawn
  locations. All of this is pure functions and lemmas.
- `Host`: the world, chunk data and worker handle the generator writes into,
  each a class. The world keeps its blocks and biomes in map fields, with
  ghost logs of the block and biome positions written. The chunk data keeps
  only its blocks. The worker keeps the history of reported progress.
- `ParcelGenerator`: chunk generation as a method of the generator class.
  The block manager is a class whose methods loop over the world, changing
  blocks or biomes in place. `clearParcel` and `doBlockOperation` report
  progress after each block; `setBiome` reports none.

The main results:

- The locator and the bottom corner are exact inverses. A column maps to a
  parcel id exactly when it lies in that parcel's square.
- At any path width of at least one, the generator lays floor exactly where
  the locator finds a parcel, and every parcel is ringed by wall.
- `generate` writes each of its 256 columns as fill up to a surface block at
  the floor height or one above, and nothing else.
- `clearParcel` sets each block of the parcel by its height alone and leaves
  everything else alone. It is therefore idempotent.
- Each traversal visits each block of the parcel exactly once, in layer
  order.
- Progress rises strictly and reaches 1 exactly at the last block.

## Model

| member | source | states |
|---|---|---|
| KotlinInt.Div | src/main/kotlin/io/dico/parcels2/defaultimpl/DefaultParcelGenerator.kt:122 | Kotlin's truncating `/` for a positive divisor: the floor quotient, except one more for a negative dividend that is not a multiple of the divisor |
| KotlinInt.Rem | src/main/kotlin/io/dico/parcels2/defaultimpl/DefaultParcelGenerator.kt:63-64 | Kotlin `%` for a positive divisor: it goes with the truncating quotient (`a == n*Div(a,n) + r`), it is smaller than the divisor in size, and it has the sign of the dividend |
| KotlinInt.UMod | src/main/kotlin/io/dico/parcels2/defaultimpl/DefaultParcelGenerator.kt:54-56 | `umod` is always in `[0, n)` and equals the floor remainder `a % n`, for negative dividends too |
| KotlinInt.DivExact | src/main/kotlin/io/dico/parcels2/defaultimpl/DefaultParcelGenerator.kt:122 | on an exact multiple, Kotlin's truncating `/` is the floor quotient and divides the number exactly |
| ParcelGrid.SectionSize | src/main/kotlin/io/dico/parcels2/defaultimpl/DefaultParcelGenerator.kt:33 | `sectionSize = parcelSize + pathSize` is positive and at least the parcel size |
| ParcelGrid.PathOffset | src/main/kotlin/io/dico/parcels2/defaultimpl/DefaultParcelGenerator.kt:34 | for both parities of the path width, `pathOffset` is `pathSize/2 + 1`, so it lies between 1 and `pathSize + 1` |
| ParcelGrid.MainPathLaid | src/main/kotlin/io/dico/parcels2/defaultimpl/DefaultParcelGenerator.kt:35 | the first column of every section (diagonal to a parcel's bottom block, `pathOffset` away on both axes) is main path exactly when `makePathMain` holds |
| ParcelGrid.AltPathLaid | src/main/kotlin/io/dico/parcels2/defaultimpl/DefaultParcelGenerator.kt:36 | the column two blocks diagonally outside a parcel's bottom block is alternative path exactly when `makePathAlt` holds |
| ParcelGrid.GetBottomBlock | src/main/kotlin/io/dico/parcels2/defaultimpl/DefaultParcelGenerator.kt:142-145 | the bottom block, shifted back by the offsets and `pathOffset`, is an exact multiple of the section size whose floor quotient is the parcel id, on both axes |
| ParcelGrid.ExampleLayout | src/main/kotlin/io/dico/parcels2/defaultimpl/DefaultParcelGenerator.kt:33-36 | with parcel size 8 and path width 3: sectionSize 11, pathOffset 2, the main path is laid and the alternative one is not; parcel (0,0) starts at (2,2) and is located there; sample columns are wall at height 65 and main path at 64 |
| ParcelGrid.ConvertBlockLocationToId | src/main/kotlin/io/dico/parcels2/defaultimpl/DefaultParcelGenerator.kt:114-125 | the locator returns an id exactly when both floor remainders of the shifted coordinates are below the parcel size; the id is then the pair of floor quotients |
| ParcelGrid.LocateIff | src/main/kotlin/io/dico/parcels2/defaultimpl/DefaultParcelGenerator.kt:117-122 | for every id and column, the locator returns `id` if and only if the column lies in the parcel-size square at `id`'s bottom block |
| ParcelGrid.LocateNone | src/main/kotlin/io/dico/parcels2/defaultimpl/DefaultParcelGenerator.kt:121-124 | the locator returns null exactly on columns that lie in no parcel's square |
| ParcelGrid.BottomBlockRoundTrip | src/main/kotlin/io/dico/parcels2/defaultimpl/DefaultParcelGenerator.kt:142-145 | the locator maps the bottom block of any parcel back to that parcel |
| ParcelGrid.ClassifyColumn | src/main/kotlin/io/dico/parcels2/defaultimpl/DefaultParcelGenerator.kt:67-79 | the cases in priority order: floor exactly on the interior square; wall one above the floor on all of the ring `[-1,P]²` outside it; alternative path exactly when `makePathAlt` holds and the column is in `[-2,P+2)²` outside that ring; main path exactly when `makePathMain` holds and neither ring applies; otherwise wall. The height is the floor height or one above, one above exactly for wall; the result is never air or fill |
| ParcelGrid.SectionOffset | src/main/kotlin/io/dico/parcels2/defaultimpl/DefaultParcelGenerator.kt:63-64 | a coordinate folded into its section and shifted by `pathOffset` lies in `[-pathOffset, sectionSize - pathOffset)` |
| ParcelGrid.WorldSurface | src/main/kotlin/io/dico/parcels2/defaultimpl/DefaultParcelGenerator.kt:55-68 | a world column's surface is at the floor height or one above, and it is floor exactly when both folded section offsets fall in `[0, parcelSize)` |
| ParcelGrid.WorldSurfacePeriodic | src/main/kotlin/io/dico/parcels2/defaultimpl/DefaultParcelGenerator.kt:55-64 | the terrain of a column depends only on its world coordinates modulo the section size, so it repeats in both directions |
| ParcelGrid.FloorIffLocated | src/main/kotlin/io/dico/parcels2/defaultimpl/DefaultParcelGenerator.kt:55-68 | at any path width of at least 1, a world column gets floor if and only if the locator finds a parcel there |
| ParcelGrid.ZeroPathDisagreement | src/main/kotlin/io/dico/parcels2/defaultimpl/DefaultParcelGenerator.kt:117-121 | at path width 0 the two disagree: with parcel size 8, column (0,0) is located in parcel (-1,-1) but is generated as wall at height 65 |
| ParcelGrid.ParcelEnclosedByWall | src/main/kotlin/io/dico/parcels2/defaultimpl/DefaultParcelGenerator.kt:68-72 | at any path width of at least 1, every column of the one-block ring around a parcel's floor is wall, one block above the floor |
| ParcelGrid.HomeLocation | src/main/kotlin/io/dico/parcels2/defaultimpl/DefaultParcelGenerator.kt:147-150 | the home location is exactly the bottom block's x, one above the floor, and the middle of the parcel along z; the locator puts it in that parcel |
| ParcelGrid.FixedSpawnLocation | src/main/kotlin/io/dico/parcels2/defaultimpl/DefaultParcelGenerator.kt:101-104 | the spawn is one above the floor, at the grid origin plus exactly half a block on both axes when the parcel size is even and exactly at the origin when it is odd; with a path it stands on no parcel |
| ParcelGenerator.ChunkColumnSurface | src/main/kotlin/io/dico/parcels2/defaultimpl/DefaultParcelGenerator.kt:55-64 | reducing the chunk start with `umod`, adding the column and taking the Kotlin remainder gives the same section offset as folding the column's world coordinate directly |
| ParcelGenerator.DefaultParcelGenerator.ColumnSurface | src/main/kotlin/io/dico/parcels2/defaultimpl/DefaultParcelGenerator.kt:63-79 | the loop body's `when` picks, for chunk column (cx, cz), the surface of world column (16·chunkX+cx, 16·chunkZ+cz) |
| ParcelGenerator.DefaultParcelGenerator.WriteColumn | src/main/kotlin/io/dico/parcels2/defaultimpl/DefaultParcelGenerator.kt:81-84 | the column's entries become fill below the surface and the surface block at its height; every other entry keeps its value |
| ParcelGenerator.DefaultParcelGenerator.Generate | src/main/kotlin/io/dico/parcels2/defaultimpl/DefaultParcelGenerator.kt:38-87 | after generation each entry of the 16×16 chunk is what its own world column's profile puts there, and every other entry keeps its value |
| ParcelGenerator.ColumnProfile | src/main/kotlin/io/dico/parcels2/defaultimpl/DefaultParcelGenerator.kt:81-84 | every generated column is fill at each height from 0 up to its surface, the surface block of its world column at the surface height (the floor height or one above), and nothing above; no other height holds a non-fill block |
| ParcelGenerator.ParcelRegionIsParcel | src/main/kotlin/io/dico/parcels2/defaultimpl/DefaultParcelGenerator.kt:204-205 | the region built from the bottom corner is well formed and never empty, with `P·P·(maxHeight+1)` blocks; it holds exactly the blocks the locator puts in the parcel, at heights 0 to maxHeight |
| ParcelGenerator.OperatedBlockAt | src/main/kotlin/io/dico/parcels2/defaultimpl/DefaultParcelGenerator.kt:235-238 | after an operation on a region, each block of the region holds what the operation gives for its position and previous type; each block outside is unchanged |
| ParcelGenerator.ClearedBlockAt | src/main/kotlin/io/dico/parcels2/defaultimpl/DefaultParcelGenerator.kt:217-223 | after clearing, a block of the region is air above the floor height, floor at it and fill below it; a block outside the region is unchanged |
| ParcelGenerator.ClearIgnoresContents | src/main/kotlin/io/dico/parcels2/defaultimpl/DefaultParcelGenerator.kt:217-223 | inside the region, the result of clearing does not depend on what was there before |
| ParcelGenerator.ClearIdempotent | src/main/kotlin/io/dico/parcels2/defaultimpl/DefaultParcelGenerator.kt:203-226 | clearing the same region twice gives the same world as clearing it once |
| ParcelGenerator.ProgressStepsIncrease | src/main/kotlin/io/dico/parcels2/defaultimpl/DefaultParcelGenerator.kt:224 | over n blocks, the k-th report times n is k+1; reports rise strictly, stay in (0, 1], and equal 1 only at the last block |
| ParcelGenerator.ProgressStepAt | src/main/kotlin/io/dico/parcels2/defaultimpl/DefaultParcelGenerator.kt:238 | one progress report: `(index+1)/blockCount` is positive and at most 1, and it is 1 exactly at the last index |
| ParcelGenerator.ParcelBlockManager.SetBiomeRow | src/main/kotlin/io/dico/parcels2/defaultimpl/DefaultParcelGenerator.kt:196-199 | the inner loop gives the biome to the columns `(x, z0)` to `(x, z0+n-1)`, writing them in ascending z, and changes nothing else |
| ParcelGenerator.ParcelBlockManager.SetBiome | src/main/kotlin/io/dico/parcels2/defaultimpl/DefaultParcelGenerator.kt:191-201 | every column of the parcel gets the biome and every other column keeps its own; the writes are the parcel's columns, x outer and z inner, each once; no block changes and no progress is reported |
| Regions.ColumnsExactlyOnce | src/main/kotlin/io/dico/parcels2/defaultimpl/DefaultParcelGenerator.kt:195-196 | the nested x/z loops list `k·sz` columns: exactly those of the rectangle, each once |
| ParcelGenerator.ParcelBlockManager.ClearParcel | src/main/kotlin/io/dico/parcels2/defaultimpl/DefaultParcelGenerator.kt:203-226 | the world becomes the cleared parcel region and nothing else changes; blocks are written in downward traversal order; the reports are `(k+1)/n` after each block, ending at 1 |
| ParcelGenerator.ParcelBlockManager.DoBlockOperation | src/main/kotlin/io/dico/parcels2/defaultimpl/DefaultParcelGenerator.kt:228-240 | each block of the parcel region gets the operation's result for its position and previous type, and nothing else changes; blocks are visited in the given traversal order; progress is reported as in clearing |
| Regions.TraverseExactlyOnce | src/main/kotlin/io/dico/parcels2/defaultimpl/DefaultParcelGenerator.kt:206 | a traversal of a region has one entry per block, covers exactly the region's blocks, and visits no block twice |
| Regions.TraverseOrdered | src/main/kotlin/io/dico/parcels2/defaultimpl/DefaultParcelGenerator.kt:231 | `DOWNWARD` never visits a lower block before a higher one, and `UPWARD` never a higher block before a lower one |

## Left out

- Integer width: Kotlin `Int` is 32 bits, while the model's integers are unbounded. Overflow of `chunkX shl 4` and of the coordinate sums is not modelled. The shift is modelled as multiplication by 16.
- Double rounding: progress `(index + 1) / blockCount` and the location coordinates are exact reals in the model.
- `umod` and `even` are defined in the utility package, which is not part of this model. `umod` is modelled from what its comment at line 54 promises (a remainder that is never negative). `even` is modelled as `% 2 == 0`.
- `RegionTraversal` is not part of this model. `DOWNWARD` and `UPWARD` are modelled as visiting one horizontal layer at a time, top down or bottom up, with each layer in x-major, then z order. Only these two directions are modelled.
- `WorktimeLimiter`, `Worker` scheduling and `markSuspensionPoint`: a submitted task runs to completion inside the call. Suspension does nothing, and the returned worker holds the progress history.
- The world is lazily resolved through `Bukkit.getWorld`, and `maxHeight` is captured as a side effect. The model passes the world and its maximum height to the generator's constructor instead.
- `setOwnerBlock`: works through Bukkit block-state APIs on three blocks at fixed offsets from the bottom block. With an owner it places the wall type (as a double slab when the wall type is a slab), a wall sign naming the parcel and the owner, and the owner's player head. Without one it puts the wall type back and sets the sign and head blocks to air.
- `generateChunkData`, `populate`, `makeParcelBlockManager`, `makeParcelLocator` and `ParcelLocatorImpl`: these are adapters that create chunk data, look up parcels in the container or build `ParcelId` values. The locator is modelled on its own, returning the id's coordinates. The world name and uid in `ParcelId` are left out.
- `HomeLocation`: does not carry the fixed yaw and pitch (-90, 0) of `getHomeLocation`.
- `Random`, `BiomeGrid` and the host's biome storage are external. A biome is known only by its name.
- Block types are the symbolic `Material` values. The option-supplied `BlockData` objects are not modelled.
- `DoBlockOperation`: the callback on a `Block` is restricted to a function that gives a block its new type from its position and current type. A callback with other effects is not modelled.
- `Generate`: Bukkit's chunk data ignores writes outside the world's height range. The model keeps every write, including a surface block at a negative height when the floor height is negative.
- `ClearParcel` and `DoBlockOperation`: the region reaches height `maxHeight`, and the host's `maxHeight` is an exclusive top, so that layer lies outside the world. Bukkit ignores those writes; the model's world keeps them.
- Option validation: the model requires a parcel size of at least 1 and a non-negative path width. The source assumes this of its loaded options.

## Observations

At path width 0, the generator and the locator disagree (`ParcelGrid.ZeroPathDisagreement`). The locator assigns every column to a parcel. The generator still lays a one-block wall in each section, leaving only `parcelSize - 1` floor columns per axis, that is `(parcelSize - 1)²` per parcel. The consistency lemmas therefore require a path of at least one block. This is not claimed as a defect: the source gives no sign that a zero-width path is meant to be supported.
