/** The host objects the generator writes into: the world's blocks and
    biomes, a chunk's block data, and the worker handle that carries a task's
    progress. The world keeps ghost logs of the block and biome positions
    written, in order; the worker keeps the history of reported progress. */
module Host {
  import opened Regions
  import opened Blocks

  /** A biome, known by name; the biome storage itself belongs to the host. */
  datatype Biome = Biome(name: string)

  /** The entry of a map at a key, if any. */
  function Get<K, V>(m: map<K, V>, k: K): Option<V> {
    if k in m then Some(m[k]) else None
  }

  /** The block type at p: what is stored there, air where nothing is. */
  function BlockAt(blocks: map<Vec3i, Material>, p: Vec3i): Material {
    if p in blocks then blocks[p] else AirType
  }

  /** Two maps with the same entries at every key are equal. */
  lemma GetExtensional<K, V>(a: map<K, V>, b: map<K, V>)
    requires forall k :: Get(a, k) == Get(b, k)
    ensures a == b
  {
    assert forall k :: k in a <==> Get(a, k).Some?;
    assert a.Keys == b.Keys by {
      forall k ensures k in a <==> k in b {
        assert Get(a, k) == Get(b, k);
      }
    }
    forall k | k in a ensures a[k] == b[k] {
      assert Get(a, k) == Get(b, k);
    }
  }

  class World {
    var blocks: map<Vec3i, Material>
    var biomes: map<Vec2i, Biome>
    ghost var blockWrites: seq<Vec3i>
    ghost var biomeWrites: seq<Vec2i>

    constructor (blocks: map<Vec3i, Material>, biomes: map<Vec2i, Biome>)
      ensures this.blocks == blocks && this.biomes == biomes
      ensures blockWrites == [] && biomeWrites == []
    {
      this.blocks := blocks;
      this.biomes := biomes;
      blockWrites := [];
      biomeWrites := [];
    }

    /** `world[p].blockData = m`. */
    method SetBlock(p: Vec3i, m: Material)
      modifies this
      ensures blocks == old(blocks)[p := m] && blockWrites == old(blockWrites) + [p]
      ensures biomes == old(biomes) && biomeWrites == old(biomeWrites)
    {
      blocks := blocks[p := m];
      blockWrites := blockWrites + [p];
    }

    /** `world.setBiome(x, z, b)`. */
    method SetBiome(x: int, z: int, b: Biome)
      modifies this
      ensures biomes == old(biomes)[Vec2i(x, z) := b] && biomeWrites == old(biomeWrites) + [Vec2i(x, z)]
      ensures blocks == old(blocks) && blockWrites == old(blockWrites)
    {
      biomes := biomes[Vec2i(x, z) := b];
      biomeWrites := biomeWrites + [Vec2i(x, z)];
    }
  }

  /** The block data of one chunk under generation, in chunk-local coordinates. */
  class ChunkData {
    var blocks: map<Vec3i, Material>

    constructor ()
      ensures blocks == map[]
    {
      blocks := map[];
    }

    /** `setBlock(x, y, z, m)`. */
    method SetBlock(x: int, y: int, z: int, m: Material)
      modifies this
      ensures blocks == old(blocks)[Vec3i(x, y, z) := m]
    {
      blocks := blocks[Vec3i(x, y, z) := m];
    }
  }

  /** The handle of a submitted task: its last reported progress, and the
      ghost history of every progress it reported. */
  class Worker {
    var progress: real
    ghost var reports: seq<real>

    constructor ()
      ensures progress == 0.0 && reports == []
    {
      progress := 0.0;
      reports := [];
    }

    /** `setProgress(p)`. */
    method SetProgress(p: real)
      modifies this
      ensures progress == p && reports == old(reports) + [p]
    {
      progress := p;
      reports := reports + [p];
    }
  }
}
