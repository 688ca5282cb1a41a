/** The default parcel generator: chunk terrain synthesis, and the block
    manager's bulk operations on one parcel (clearing it, setting its biome,
    running an operation on every block of it). A task submitted to the
    worktime limiter is run here to completion in one call; its suspension
    points do nothing. */
module ParcelGenerator {
  import opened KotlinInt
  import opened Regions
  import opened Blocks
  import opened ParcelGrid
  import opened Host

  /** What generation writes at height y of a column whose surface is s:
      the surface block at its height, fill from 0 up to it, nothing else. */
  function ColumnBlock(s: Surface, y: int): Option<Material> {
    if y == s.height then Some(s.material)
    else if 0 <= y < s.height then Some(FillType)
    else None
  }

  /** What generating chunk (chunkX, chunkZ) writes at chunk-local position p. */
  function GeneratedBlock(o: Options, chunkX: int, chunkZ: int, p: Vec3i): Option<Material>
    requires ValidOptions(o)
  {
    if 0 <= p.x < 16 && 0 <= p.z < 16 then
      ColumnBlock(WorldSurface(o, 16 * chunkX + p.x, 16 * chunkZ + p.z), p.y)
    else
      None
  }

  /** The chunk's entry at p after generation over contents m. */
  function AfterGenerate(o: Options, chunkX: int, chunkZ: int, m: map<Vec3i, Material>, p: Vec3i): Option<Material>
    requires ValidOptions(o)
  {
    var g := GeneratedBlock(o, chunkX, chunkZ, p);
    if g.Some? then g else Get(m, p)
  }

  /** Each generated column is fill from height 0 up to its surface, one
      surface block at the floor height or one above it, and nothing above. */
  lemma ColumnProfile(o: Options, chunkX: int, chunkZ: int, cx: int, cz: int)
    requires ValidOptions(o) && 0 <= cx < 16 && 0 <= cz < 16
    ensures var h := WorldSurface(o, 16 * chunkX + cx, 16 * chunkZ + cz).height;
      (h == o.floorHeight || h == o.floorHeight + 1) &&
      (forall y :: 0 <= y < h ==> GeneratedBlock(o, chunkX, chunkZ, Vec3i(cx, y, cz)) == Some(FillType)) &&
      (forall y :: y > h ==> GeneratedBlock(o, chunkX, chunkZ, Vec3i(cx, y, cz)) == None) &&
      (forall y, m :: GeneratedBlock(o, chunkX, chunkZ, Vec3i(cx, y, cz)) == Some(m) && m != FillType ==> y == h) &&
      GeneratedBlock(o, chunkX, chunkZ, Vec3i(cx, h, cz)) == Some(WorldSurface(o, 16 * chunkX + cx, 16 * chunkZ + cz).material)
  {
    var s := WorldSurface(o, 16 * chunkX + cx, 16 * chunkZ + cz);
    forall y ensures GeneratedBlock(o, chunkX, chunkZ, Vec3i(cx, y, cz)) == ColumnBlock(s, y) {
    }
  }

  /** Folding a chunk column the way generation does (reduce the chunk's
      start, add the column, take the remainder) gives the section offset of
      the column's world coordinate. */
  lemma FoldChunkColumn(o: Options, chunk: int, offset: int, c: int)
    requires ValidOptions(o) && 0 <= c
    ensures Rem(UMod(16 * chunk - offset, SectionSize(o)) + c, SectionSize(o)) - PathOffset(o)
         == SectionOffset(o, 16 * chunk + c - offset)
  {
    ModAddReduce(16 * chunk - offset, c, SectionSize(o));
  }

  /** The surface of chunk column (cx, cz) is the classification of its
      folded section offsets. */
  lemma ChunkColumnSurface(o: Options, chunkX: int, chunkZ: int, pbx: int, pbz: int, cx: int, cz: int)
    requires ValidOptions(o) && 0 <= cx && 0 <= cz
    requires pbx == UMod(16 * chunkX - o.offsetX, SectionSize(o))
    requires pbz == UMod(16 * chunkZ - o.offsetZ, SectionSize(o))
    ensures WorldSurface(o, 16 * chunkX + cx, 16 * chunkZ + cz) == ClassifyColumn(o,
      Rem(pbx + cx, SectionSize(o)) - PathOffset(o), Rem(pbz + cz, SectionSize(o)) - PathOffset(o))
  {
    FoldChunkColumn(o, chunkX, o.offsetX, cx);
    FoldChunkColumn(o, chunkZ, o.offsetZ, cz);
    assert 16 * chunkX + cx - o.offsetX == 16 * chunkX - o.offsetX + cx;
    assert 16 * chunkZ + cz - o.offsetZ == 16 * chunkZ - o.offsetZ + cz;
  }

  /** Column (cx, cz) of contents m once the column of surface s is written
      into it: the column's blocks replace m's entries, every other entry stays. */
  function ColumnWritten(m: map<Vec3i, Material>, cx: int, cz: int, s: Surface, p: Vec3i): Option<Material> {
    if p.x == cx && p.z == cz && ColumnBlock(s, p.y).Some? then ColumnBlock(s, p.y) else Get(m, p)
  }

  /** The chunk's entry at p once generation has done every column before
      (cx, cz), in x-major order. */
  function ChunkSoFar(o: Options, chunkX: int, chunkZ: int, m: map<Vec3i, Material>,
                      cx: int, cz: int, p: Vec3i): Option<Material>
    requires ValidOptions(o)
  {
    if 0 <= p.x < cx || (p.x == cx && 0 <= p.z < cz) then AfterGenerate(o, chunkX, chunkZ, m, p)
    else Get(m, p)
  }

  lemma ChunkSoFarEnds(o: Options, chunkX: int, chunkZ: int, m: map<Vec3i, Material>, p: Vec3i)
    requires ValidOptions(o)
    ensures ChunkSoFar(o, chunkX, chunkZ, m, 0, 0, p) == Get(m, p)
    ensures ChunkSoFar(o, chunkX, chunkZ, m, 16, 0, p) == AfterGenerate(o, chunkX, chunkZ, m, p)
  {
  }

  /** Finishing the last column of row cx is starting row cx + 1. */
  lemma ChunkSoFarNextRow(o: Options, chunkX: int, chunkZ: int, m: map<Vec3i, Material>, cx: int, p: Vec3i)
    requires ValidOptions(o)
    ensures ChunkSoFar(o, chunkX, chunkZ, m, cx, 16, p) == ChunkSoFar(o, chunkX, chunkZ, m, cx + 1, 0, p)
  {
  }

  /** Writing column (cx, cz) with its generated surface advances the
      generation by one column. */
  lemma ChunkSoFarColumn(o: Options, chunkX: int, chunkZ: int, m: map<Vec3i, Material>,
                         cur: map<Vec3i, Material>, cx: int, cz: int, s: Surface, p: Vec3i)
    requires ValidOptions(o) && 0 <= cx < 16 && 0 <= cz < 16
    requires s == WorldSurface(o, 16 * chunkX + cx, 16 * chunkZ + cz)
    requires forall q :: Get(cur, q) == ChunkSoFar(o, chunkX, chunkZ, m, cx, cz, q)
    ensures ColumnWritten(cur, cx, cz, s, p) == ChunkSoFar(o, chunkX, chunkZ, m, cx, cz + 1, p)
  {
    assert Get(cur, p) == ChunkSoFar(o, chunkX, chunkZ, m, cx, cz, p);
  }

  /** The blocks `clearParcel` and `doBlockOperation` work on: the parcel
      square from height 0 to the world's maximum height. */
  function ParcelRegion(o: Options, maxHeight: nat, id: Vec2i): Region
    requires ValidOptions(o)
  {
    var bottom := GetBottomBlock(o, id);
    Region(Vec3i(bottom.x, 0, bottom.z), Vec3i(o.parcelSize, maxHeight + 1, o.parcelSize))
  }

  /** The region is exactly the parcel as the locator sees it, over every
      height, and it is never empty. */
  lemma ParcelRegionIsParcel(o: Options, maxHeight: nat, id: Vec2i, p: Vec3i)
    requires ValidOptions(o)
    ensures WellFormed(ParcelRegion(o, maxHeight, id))
    ensures BlockCount(ParcelRegion(o, maxHeight, id)) == o.parcelSize * o.parcelSize * (maxHeight + 1) > 0
    ensures Contains(ParcelRegion(o, maxHeight, id), p) <==>
      ConvertBlockLocationToId(o, p.x, p.z) == Some(id) && 0 <= p.y <= maxHeight
  {
    var r := ParcelRegion(o, maxHeight, id);
    assert r.size == Vec3i(o.parcelSize, maxHeight + 1, o.parcelSize);
    SquareVolume(o.parcelSize, maxHeight + 1);
    LocateIff(o, id, p.x, p.z);
  }

  lemma SquareVolume(a: int, h: int)
    requires a > 0 && h > 0
    ensures a * h * a == a * a * h > 0
  {
    assert a * a > 0;
  }

  /** Contents after running `op` on every block of r over contents m. */
  function OperatedBlocks(m: map<Vec3i, Material>, r: Region, op: (Vec3i, Material) -> Material): map<Vec3i, Material> {
    map p | p in m.Keys + RegionSet(r) :: if Contains(r, p) then op(p, BlockAt(m, p)) else m[p]
  }

  lemma OperatedBlockAt(m: map<Vec3i, Material>, r: Region, op: (Vec3i, Material) -> Material, p: Vec3i)
    ensures Get(OperatedBlocks(m, r, op), p) == if Contains(r, p) then Some(op(p, BlockAt(m, p))) else Get(m, p)
  {
    RegionSetContains(r, p);
  }

  /** What `clearParcel` puts at height y. */
  function ClearedMaterial(floorHeight: int, y: int): Material {
    if y > floorHeight then AirType
    else if y == floorHeight then FloorType
    else FillType
  }

  /** Contents after clearing region r over contents m. */
  function ClearedBlocks(m: map<Vec3i, Material>, r: Region, floorHeight: int): map<Vec3i, Material> {
    OperatedBlocks(m, r, (p: Vec3i, b: Material) => ClearedMaterial(floorHeight, p.y))
  }

  /** Clearing sets each block of the region by its height alone (air above
      the floor, floor at it, fill below) whatever was there, and leaves every
      other block as it was. */
  lemma ClearedBlockAt(m: map<Vec3i, Material>, r: Region, floorHeight: int, p: Vec3i)
    ensures !Contains(r, p) ==> Get(ClearedBlocks(m, r, floorHeight), p) == Get(m, p)
    ensures Contains(r, p) && p.y > floorHeight ==> Get(ClearedBlocks(m, r, floorHeight), p) == Some(AirType)
    ensures Contains(r, p) && p.y == floorHeight ==> Get(ClearedBlocks(m, r, floorHeight), p) == Some(FloorType)
    ensures Contains(r, p) && p.y < floorHeight ==> Get(ClearedBlocks(m, r, floorHeight), p) == Some(FillType)
  {
    OperatedBlockAt(m, r, (p: Vec3i, b: Material) => ClearedMaterial(floorHeight, p.y), p);
  }

  /** Clearing does not depend on the previous contents of the region. */
  lemma ClearIgnoresContents(m1: map<Vec3i, Material>, m2: map<Vec3i, Material>, r: Region, floorHeight: int, p: Vec3i)
    requires Contains(r, p)
    ensures Get(ClearedBlocks(m1, r, floorHeight), p) == Get(ClearedBlocks(m2, r, floorHeight), p)
  {
    ClearedBlockAt(m1, r, floorHeight, p);
    ClearedBlockAt(m2, r, floorHeight, p);
  }

  /** Clearing twice is clearing once. */
  lemma ClearIdempotent(m: map<Vec3i, Material>, r: Region, floorHeight: int)
    ensures ClearedBlocks(ClearedBlocks(m, r, floorHeight), r, floorHeight) == ClearedBlocks(m, r, floorHeight)
  {
    var once := ClearedBlocks(m, r, floorHeight);
    forall p ensures Get(ClearedBlocks(once, r, floorHeight), p) == Get(once, p) {
      ClearedBlockAt(once, r, floorHeight, p);
      ClearedBlockAt(m, r, floorHeight, p);
    }
    GetExtensional(ClearedBlocks(once, r, floorHeight), once);
  }

  /** The progress a task reports after each of its n blocks. */
  function ProgressSteps(n: nat): seq<real> {
    seq(n, k requires 0 <= k < n => (k + 1) as real / n as real)
  }

  /** After the k-th block the progress is k / n; it strictly increases, stays
      in (0, 1], and reaches 1 exactly at the last block. */
  lemma ProgressStepsIncrease(n: nat)
    requires n > 0
    ensures |ProgressSteps(n)| == n
    ensures forall k :: 0 <= k < n ==> ProgressSteps(n)[k] * n as real == (k + 1) as real
    ensures forall i, j :: 0 <= i < j < n ==> ProgressSteps(n)[i] < ProgressSteps(n)[j]
    ensures forall k :: 0 <= k < n ==> 0.0 < ProgressSteps(n)[k] <= 1.0
    ensures forall k :: 0 <= k < n ==> (ProgressSteps(n)[k] == 1.0 <==> k == n - 1)
  {
    forall k | 0 <= k < n
      ensures ProgressSteps(n)[k] * n as real == (k + 1) as real
      ensures 0.0 < ProgressSteps(n)[k] <= 1.0 && (ProgressSteps(n)[k] == 1.0 <==> k == n - 1)
    {
      ProgressStepAt(n, k);
    }
    forall i, j | 0 <= i < j < n ensures ProgressSteps(n)[i] < ProgressSteps(n)[j] {
      QuotientLess((i + 1) as real, (j + 1) as real, n as real);
    }
  }

  lemma ProgressStepAt(n: nat, k: nat)
    requires 0 <= k < n
    ensures ProgressSteps(n)[k] * n as real == (k + 1) as real
    ensures 0.0 < ProgressSteps(n)[k] <= 1.0
    ensures ProgressSteps(n)[k] == 1.0 <==> k == n - 1
  {
    var d := n as real;
    assert ProgressSteps(n)[k] == (k + 1) as real / d;
    Quotient((k + 1) as real, d);
    QuotientLess(0.0, (k + 1) as real, d);
    Quotient(d, d);
    if k < n - 1 {
      QuotientLess((k + 1) as real, d, d);
    }
  }

  /** One more report extends the history by the next step. */
  lemma ProgressStepsSnoc(n: nat, k: nat)
    requires k < n
    ensures ProgressSteps(n)[..k + 1] == ProgressSteps(n)[..k] + [(k + 1) as real / n as real]
  {
    assert ProgressSteps(n)[k] == (k + 1) as real / n as real;
  }

  lemma WholeQuotient(d: real)
    requires d > 0.0
    ensures d / d == 1.0
  {
  }

  lemma Quotient(a: real, d: real)
    requires d > 0.0
    ensures (a / d) * d == a
  {
  }

  lemma QuotientLess(a: real, b: real, d: real)
    requires d > 0.0 && a < b
    ensures a / d < b / d
  {
    Quotient(a, d);
    Quotient(b, d);
  }

  /** The generator, built from its options, the world it generates and that
      world's maximum height. */
  class DefaultParcelGenerator {
    const o: Options
    const world: World
    const maxHeight: nat

    constructor (o: Options, world: World, maxHeight: nat)
      requires ValidOptions(o)
      ensures this.o == o && this.world == world && this.maxHeight == maxHeight
    {
      this.o := o;
      this.world := world;
      this.maxHeight := maxHeight;
    }

    /** `generate`: fill chunk (chunkX, chunkZ), column by column, with each
        column's fill and surface blocks. Every other entry keeps its value. */
    method Generate(chunkX: int, chunkZ: int, out: ChunkData)
      requires ValidOptions(o)
      modifies out
      ensures forall p :: Get(out.blocks, p) == AfterGenerate(o, chunkX, chunkZ, old(out.blocks), p)
    {
      var sectionSize := SectionSize(o);
      var pbx := UMod(16 * chunkX - o.offsetX, sectionSize);
      var pbz := UMod(16 * chunkZ - o.offsetZ, sectionSize);

      ghost var before := out.blocks;
      forall p ensures Get(out.blocks, p) == ChunkSoFar(o, chunkX, chunkZ, before, 0, 0, p) {
        ChunkSoFarEnds(o, chunkX, chunkZ, before, p);
      }
      for cx := 0 to 16
        invariant forall p :: Get(out.blocks, p) == ChunkSoFar(o, chunkX, chunkZ, before, cx, 0, p)
      {
        for cz := 0 to 16
          invariant forall p :: Get(out.blocks, p) == ChunkSoFar(o, chunkX, chunkZ, before, cx, cz, p)
        {
          var surface := ColumnSurface(chunkX, chunkZ, pbx, pbz, cx, cz);
          ghost var cur := out.blocks;
          WriteColumn(cx, cz, surface.height, surface.material, out);
          forall p ensures Get(out.blocks, p) == ChunkSoFar(o, chunkX, chunkZ, before, cx, cz + 1, p) {
            ChunkSoFarColumn(o, chunkX, chunkZ, before, cur, cx, cz, surface, p);
          }
        }
        forall p ensures Get(out.blocks, p) == ChunkSoFar(o, chunkX, chunkZ, before, cx + 1, 0, p) {
          ChunkSoFarNextRow(o, chunkX, chunkZ, before, cx, p);
        }
      }
      forall p ensures Get(out.blocks, p) == AfterGenerate(o, chunkX, chunkZ, before, p) {
        ChunkSoFarEnds(o, chunkX, chunkZ, before, p);
      }
    }

    /** The classification in `generate`'s column loop: fold column (cx, cz)
        into its section (pbx, pbz are the section offsets of the chunk's
        first column) and pick its height and block type. */
    method ColumnSurface(chunkX: int, chunkZ: int, pbx: int, pbz: int, cx: int, cz: int) returns (s: Surface)
      requires ValidOptions(o) && 0 <= cx < 16 && 0 <= cz < 16
      requires pbx == UMod(16 * chunkX - o.offsetX, SectionSize(o))
      requires pbz == UMod(16 * chunkZ - o.offsetZ, SectionSize(o))
      ensures s == WorldSurface(o, 16 * chunkX + cx, 16 * chunkZ + cz)
    {
      var floorHeight := o.floorHeight;
      var parcelSize := o.parcelSize;
      var sectionSize := SectionSize(o);
      var pathOffset := PathOffset(o);
      var makePathMain := MakePathMain(o);
      var makePathAlt := MakePathAlt(o);

      var x := Rem(pbx + cx, sectionSize) - pathOffset;
      var z := Rem(pbz + cz, sectionSize) - pathOffset;
      var curHeight := floorHeight;
      var blockType;
      if 0 <= x < parcelSize && 0 <= z < parcelSize {
        blockType := FloorType;
      } else if -1 <= x <= parcelSize && -1 <= z <= parcelSize {
        curHeight := curHeight + 1;
        blockType := WallType;
      } else if makePathAlt && -2 <= x < parcelSize + 2 && -2 <= z < parcelSize + 2 {
        blockType := PathAltType;
      } else if makePathMain {
        blockType := PathMainType;
      } else {
        curHeight := curHeight + 1;
        blockType := WallType;
      }
      s := Surface(blockType, curHeight);
      assert s == ClassifyColumn(o, x, z);
      ChunkColumnSurface(o, chunkX, chunkZ, pbx, pbz, cx, cz);
    }

    /** The writes of `generate`'s column loop: fill from height 0 up to the
        surface, then the surface block itself. */
    method WriteColumn(cx: int, cz: int, curHeight: int, blockType: Material, out: ChunkData)
      modifies out
      ensures forall p :: Get(out.blocks, p) == ColumnWritten(old(out.blocks), cx, cz, Surface(blockType, curHeight), p)
    {
      ghost var m := out.blocks;
      var y := 0;
      while y < curHeight
        invariant 0 <= y <= if curHeight >= 0 then curHeight else 0
        invariant forall p :: (Get(out.blocks, p) ==
          if p.x == cx && p.z == cz && 0 <= p.y < y then Some(FillType) else Get(m, p))
      {
        out.SetBlock(cx, y, cz, FillType);
        y := y + 1;
      }
      out.SetBlock(cx, curHeight, cz, blockType);
    }
  }

  /** The block manager of a generator: bulk operations on one parcel of its world. */
  class ParcelBlockManager {
    const generator: DefaultParcelGenerator

    constructor (generator: DefaultParcelGenerator)
      ensures this.generator == generator
    {
      this.generator := generator;
    }

    /** `setBiome`: set the biome of every column of the parcel, x by x and
        z by z within each x; each column is set exactly once. */
    method SetBiome(id: Vec2i, biome: Biome) returns (worker: Worker)
      requires ValidOptions(generator.o)
      modifies generator.world
      ensures fresh(worker) && worker.progress == 0.0 && worker.reports == []
      ensures forall c :: (Get(generator.world.biomes, c) ==
        if InParcel(generator.o, id, c.x, c.z) then Some(biome) else Get(old(generator.world.biomes), c))
      ensures generator.world.biomeWrites == old(generator.world.biomeWrites) +
        Columns(GetBottomBlock(generator.o, id).x, GetBottomBlock(generator.o, id).z, generator.o.parcelSize, generator.o.parcelSize)
      ensures generator.world.blocks == old(generator.world.blocks)
      ensures generator.world.blockWrites == old(generator.world.blockWrites)
    {
      var world := generator.world;
      var b := GetBottomBlock(generator.o, id);
      var parcelSize := generator.o.parcelSize;
      for x := b.x to b.x + parcelSize
        invariant world.biomeWrites == old(world.biomeWrites) + Columns(b.x, b.z, x - b.x, parcelSize)
        invariant forall c :: (Get(world.biomes, c) ==
          if b.x <= c.x < x && b.z <= c.z < b.z + parcelSize then Some(biome) else Get(old(world.biomes), c))
        invariant world.blocks == old(world.blocks) && world.blockWrites == old(world.blockWrites)
      {
        SetBiomeRow(world, x, b.z, parcelSize, biome);
        assert Columns(b.x, b.z, x + 1 - b.x, parcelSize) ==
          Columns(b.x, b.z, x - b.x, parcelSize) + ColumnRow(x, b.z, parcelSize);
      }
      worker := new Worker();
    }

    /** The inner loop of `setBiome`: the columns (x, z0) to (x, z0 + n - 1), in order. */
    method SetBiomeRow(world: World, x: int, z0: int, n: int, biome: Biome)
      requires n >= 0
      modifies world
      ensures forall c :: (Get(world.biomes, c) ==
        if c.x == x && z0 <= c.z < z0 + n then Some(biome) else Get(old(world.biomes), c))
      ensures world.biomeWrites == old(world.biomeWrites) + ColumnRow(x, z0, n)
      ensures world.blocks == old(world.blocks) && world.blockWrites == old(world.blockWrites)
    {
      for z := z0 to z0 + n
        invariant world.biomeWrites == old(world.biomeWrites) + ColumnRow(x, z0, z - z0)
        invariant forall c :: (Get(world.biomes, c) ==
          if c.x == x && z0 <= c.z < z then Some(biome) else Get(old(world.biomes), c))
        invariant world.blocks == old(world.blocks) && world.blockWrites == old(world.blockWrites)
      {
        world.SetBiome(x, z, biome);
        assert ColumnRow(x, z0, z + 1 - z0) == ColumnRow(x, z0, z - z0) + [Vec2i(x, z)];
      }
    }

    /** `clearParcel`: visit the parcel's region top down, putting air above
        the floor, floor at the floor height and fill below, and report the
        progress after each block. */
    method ClearParcel(id: Vec2i) returns (worker: Worker)
      requires ValidOptions(generator.o)
      modifies generator.world
      ensures fresh(worker)
      ensures generator.world.blocks ==
        ClearedBlocks(old(generator.world.blocks), ParcelRegion(generator.o, generator.maxHeight, id), generator.o.floorHeight)
      ensures generator.world.blockWrites ==
        old(generator.world.blockWrites) + Traverse(Downward, ParcelRegion(generator.o, generator.maxHeight, id))
      ensures worker.reports == ProgressSteps(BlockCount(ParcelRegion(generator.o, generator.maxHeight, id)))
      ensures worker.progress == 1.0
      ensures generator.world.biomes == old(generator.world.biomes)
      ensures generator.world.biomeWrites == old(generator.world.biomeWrites)
    {
      worker := new Worker();
      var bottom := GetBottomBlock(generator.o, id);
      var region := Region(Vec3i(bottom.x, 0, bottom.z), Vec3i(generator.o.parcelSize, generator.maxHeight + 1, generator.o.parcelSize));
      assert region == ParcelRegion(generator.o, generator.maxHeight, id);
      var blocks := Traverse(Downward, region);
      TraverseExactlyOnce(Downward, region);
      var n := BlockCount(region);
      var blockCount := n as real;

      var world := generator.world;
      var floorHeight := generator.o.floorHeight;

      for index := 0 to |blocks|
        invariant world.blockWrites == old(world.blockWrites) + blocks[..index]
        invariant forall p :: (Get(world.blocks, p) ==
          if p in blocks[..index] then Some(ClearedMaterial(floorHeight, p.y)) else Get(old(world.blocks), p))
        invariant worker.reports == ProgressSteps(n)[..index]
        invariant index > 0 ==> worker.progress == index as real / blockCount
        invariant world.biomes == old(world.biomes) && world.biomeWrites == old(world.biomeWrites)
      {
        var vec := blocks[index];
        var y := vec.y;
        var blockType := if y > floorHeight then AirType else if y == floorHeight then FloorType else FillType;
        assert blockType == ClearedMaterial(floorHeight, vec.y);
        world.SetBlock(vec, blockType);
        worker.SetProgress((index + 1) as real / blockCount);
        assert blocks[..index + 1] == blocks[..index] + [vec];
        ProgressStepsSnoc(n, index);
      }
      assert blocks[..|blocks|] == blocks;
      assert ProgressSteps(n)[..|blocks|] == ProgressSteps(n);
      ParcelRegionIsParcel(generator.o, generator.maxHeight, id, Vec3i(0, 0, 0));
      WholeQuotient(blockCount);
      forall p ensures Get(world.blocks, p) == Get(ClearedBlocks(old(world.blocks), region, floorHeight), p) {
        ClearedBlockAt(old(world.blocks), region, floorHeight, p);
      }
      GetExtensional(world.blocks, ClearedBlocks(old(world.blocks), region, floorHeight));
    }

    /** `doBlockOperation`: visit the parcel's region in the given order, pass
        each block to `operation`, which gives the block its new type from its
        position and current type, and report the progress after each block. */
    method DoBlockOperation(id: Vec2i, direction: Traversal, operation: (Vec3i, Material) -> Material) returns (worker: Worker)
      requires ValidOptions(generator.o)
      modifies generator.world
      ensures fresh(worker)
      ensures generator.world.blocks ==
        OperatedBlocks(old(generator.world.blocks), ParcelRegion(generator.o, generator.maxHeight, id), operation)
      ensures generator.world.blockWrites ==
        old(generator.world.blockWrites) + Traverse(direction, ParcelRegion(generator.o, generator.maxHeight, id))
      ensures worker.reports == ProgressSteps(BlockCount(ParcelRegion(generator.o, generator.maxHeight, id)))
      ensures worker.progress == 1.0
      ensures generator.world.biomes == old(generator.world.biomes)
      ensures generator.world.biomeWrites == old(generator.world.biomeWrites)
    {
      worker := new Worker();
      var bottom := GetBottomBlock(generator.o, id);
      var region := Region(Vec3i(bottom.x, 0, bottom.z), Vec3i(generator.o.parcelSize, generator.maxHeight + 1, generator.o.parcelSize));
      assert region == ParcelRegion(generator.o, generator.maxHeight, id);
      var blocks := Traverse(direction, region);
      TraverseExactlyOnce(direction, region);
      var n := BlockCount(region);
      var blockCount := n as real;
      var world := generator.world;

      for index := 0 to |blocks|
        invariant world.blockWrites == old(world.blockWrites) + blocks[..index]
        invariant forall p :: (Get(world.blocks, p) ==
          if p in blocks[..index] then Some(operation(p, BlockAt(old(world.blocks), p))) else Get(old(world.blocks), p))
        invariant worker.reports == ProgressSteps(n)[..index]
        invariant index > 0 ==> worker.progress == index as real / blockCount
        invariant world.biomes == old(world.biomes) && world.biomeWrites == old(world.biomeWrites)
      {
        var vec := blocks[index];
        assert vec !in blocks[..index];
        world.SetBlock(vec, operation(vec, BlockAt(world.blocks, vec)));
        worker.SetProgress((index + 1) as real / blockCount);
        assert blocks[..index + 1] == blocks[..index] + [vec];
        ProgressStepsSnoc(n, index);
      }
      assert blocks[..|blocks|] == blocks;
      assert ProgressSteps(n)[..|blocks|] == ProgressSteps(n);
      ParcelRegionIsParcel(generator.o, generator.maxHeight, id, Vec3i(0, 0, 0));
      WholeQuotient(blockCount);
      forall p ensures Get(world.blocks, p) == Get(OperatedBlocks(old(world.blocks), region, operation), p) {
        OperatedBlockAt(old(world.blocks), region, operation, p);
      }
      GetExtensional(world.blocks, OperatedBlocks(old(world.blocks), region, operation));
    }
  }
}
