/** Block and column coordinates, axis-aligned regions, and the orders in
    which a region traversal enumerates the blocks of a region. */
module Regions {

  /** A horizontal (x, z) position: a world column, a parcel corner or a parcel id. */
  datatype Vec2i = Vec2i(x: int, z: int)

  /** A block position. */
  datatype Vec3i = Vec3i(x: int, y: int, z: int)

  /** An axis-aligned box: its minimum corner and its extent along each axis. */
  datatype Region = Region(origin: Vec3i, size: Vec3i)

  predicate WellFormed(r: Region) {
    r.size.x >= 0 && r.size.y >= 0 && r.size.z >= 0
  }

  predicate Contains(r: Region, p: Vec3i) {
    r.origin.x <= p.x < r.origin.x + r.size.x &&
    r.origin.y <= p.y < r.origin.y + r.size.y &&
    r.origin.z <= p.z < r.origin.z + r.size.z
  }

  function BlockCount(r: Region): int {
    r.size.x * r.size.y * r.size.z
  }

  /** The blocks of a region, as a finite set. */
  function RegionSet(r: Region): set<Vec3i> {
    set x, y, z | r.origin.x <= x < r.origin.x + r.size.x &&
                  r.origin.y <= y < r.origin.y + r.size.y &&
                  r.origin.z <= z < r.origin.z + r.size.z :: Vec3i(x, y, z)
  }

  lemma RegionSetContains(r: Region, p: Vec3i)
    ensures p in RegionSet(r) <==> Contains(r, p)
  {
    if Contains(r, p) {
      assert p == Vec3i(p.x, p.y, p.z);
    }
  }

  predicate Distinct<T(==)>(s: seq<T>) {
    forall i, j :: 0 <= i < j < |s| ==> s[i] != s[j]
  }

  lemma DistinctConcat<T>(a: seq<T>, b: seq<T>)
    requires Distinct(a) && Distinct(b)
    requires forall e :: e in a ==> e !in b
    ensures Distinct(a + b)
  {
    forall i, j | 0 <= i < j < |a + b|
      ensures (a + b)[i] != (a + b)[j]
    {
      if j >= |a| && i < |a| {
        assert (a + b)[i] in a;
        assert (a + b)[j] == b[j - |a|];
      }
    }
  }

  /** The columns (x, z0), (x, z0+1), ..., (x, z0+n-1). */
  function ColumnRow(x: int, z0: int, n: nat): seq<Vec2i> {
    seq(n, j => Vec2i(x, z0 + j))
  }

  /** The columns of the rectangle [x0, x0+k) x [z0, z0+sz), x in the outer
      order and z in the inner order, both ascending. */
  function Columns(x0: int, z0: int, k: nat, sz: nat): seq<Vec2i> {
    if k == 0 then [] else Columns(x0, z0, k - 1, sz) + ColumnRow(x0 + k - 1, z0, sz)
  }

  /** The column enumeration lists every column of the rectangle exactly once. */
  lemma {:induction false} ColumnsExactlyOnce(x0: int, z0: int, k: nat, sz: nat)
    ensures |Columns(x0, z0, k, sz)| == k * sz
    ensures forall c :: c in Columns(x0, z0, k, sz) <==> x0 <= c.x < x0 + k && z0 <= c.z < z0 + sz
    ensures Distinct(Columns(x0, z0, k, sz))
  {
    if k > 0 {
      ColumnsExactlyOnce(x0, z0, k - 1, sz);
      var prev, row := Columns(x0, z0, k - 1, sz), ColumnRow(x0 + k - 1, z0, sz);
      assert forall c :: c in row <==> c.x == x0 + k - 1 && z0 <= c.z < z0 + sz by {
        forall c: Vec2i | c.x == x0 + k - 1 && z0 <= c.z < z0 + sz ensures c in row {
          assert row[c.z - z0] == c;
        }
      }
      DistinctConcat(prev, row);
      assert (k - 1) * sz + sz == k * sz;
    }
  }

  /** One horizontal layer of a region at height y, in column order. */
  function Layer(r: Region, y: int): seq<Vec3i>
    requires WellFormed(r)
  {
    var cols := Columns(r.origin.x, r.origin.z, r.size.x, r.size.z);
    seq(|cols|, i requires 0 <= i < |cols| => Vec3i(cols[i].x, y, cols[i].z))
  }

  lemma LayerExactlyOnce(r: Region, y: int)
    requires WellFormed(r)
    ensures |Layer(r, y)| == r.size.x * r.size.z
    ensures forall p :: p in Layer(r, y) <==>
      p.y == y && r.origin.x <= p.x < r.origin.x + r.size.x && r.origin.z <= p.z < r.origin.z + r.size.z
    ensures Distinct(Layer(r, y))
  {
    var cols := Columns(r.origin.x, r.origin.z, r.size.x, r.size.z);
    ColumnsExactlyOnce(r.origin.x, r.origin.z, r.size.x, r.size.z);
    var l := Layer(r, y);
    forall p: Vec3i | p.y == y && r.origin.x <= p.x < r.origin.x + r.size.x && r.origin.z <= p.z < r.origin.z + r.size.z
      ensures p in l
    {
      assert Vec2i(p.x, p.z) in cols;
      var i :| 0 <= i < |cols| && cols[i] == Vec2i(p.x, p.z);
      assert l[i] == p;
    }
    forall p | p in l
      ensures r.origin.x <= p.x < r.origin.x + r.size.x && r.origin.z <= p.z < r.origin.z + r.size.z
    {
      var i :| 0 <= i < |l| && l[i] == p;
      assert cols[i] in cols;
    }
    forall i, j | 0 <= i < j < |l| ensures l[i] != l[j] {
      assert cols[i] != cols[j];
    }
  }

  /** A region traversal: the vertical order in which layers are visited. */
  datatype Traversal = Downward | Upward

  /** Height of the i-th layer visited. */
  function LayerHeight(t: Traversal, r: Region, i: int): int {
    match t
    case Downward => r.origin.y + r.size.y - 1 - i
    case Upward => r.origin.y + i
  }

  /** The first k layers visited by traversal t. */
  function Layers(t: Traversal, r: Region, k: nat): seq<Vec3i>
    requires WellFormed(r)
  {
    if k == 0 then [] else Layers(t, r, k - 1) + Layer(r, LayerHeight(t, r, k - 1))
  }

  /** Every block of a region, in the order traversal t visits them. */
  function Traverse(t: Traversal, r: Region): seq<Vec3i>
    requires WellFormed(r)
  {
    Layers(t, r, r.size.y)
  }

  /** Heights of the layers visited first: those within k layers of the start. */
  predicate InFirstLayers(t: Traversal, r: Region, k: int, y: int) {
    match t
    case Downward => r.origin.y + r.size.y - k <= y < r.origin.y + r.size.y
    case Upward => r.origin.y <= y < r.origin.y + k
  }

  lemma {:induction false} LayersExactlyOnce(t: Traversal, r: Region, k: nat)
    requires WellFormed(r)
    ensures |Layers(t, r, k)| == k * (r.size.x * r.size.z)
    ensures forall p :: p in Layers(t, r, k) <==>
      InFirstLayers(t, r, k, p.y) && r.origin.x <= p.x < r.origin.x + r.size.x && r.origin.z <= p.z < r.origin.z + r.size.z
    ensures Distinct(Layers(t, r, k))
  {
    if k > 0 {
      LayersExactlyOnce(t, r, k - 1);
      LayerExactlyOnce(r, LayerHeight(t, r, k - 1));
      DistinctConcat(Layers(t, r, k - 1), Layer(r, LayerHeight(t, r, k - 1)));
      assert (k - 1) * (r.size.x * r.size.z) + r.size.x * r.size.z == k * (r.size.x * r.size.z);
    }
  }

  /** A traversal visits each block of the region exactly once, and nothing
      else: its length is the block count, its elements are exactly the
      region's blocks, and no block repeats. */
  lemma TraverseExactlyOnce(t: Traversal, r: Region)
    requires WellFormed(r)
    ensures |Traverse(t, r)| == BlockCount(r)
    ensures forall p :: p in Traverse(t, r) <==> Contains(r, p)
    ensures Distinct(Traverse(t, r))
  {
    LayersExactlyOnce(t, r, r.size.y);
    VolumeByLayers(r.size.x, r.size.y, r.size.z);
  }

  lemma VolumeByLayers(sx: int, sy: int, sz: int)
    ensures sy * (sx * sz) == sx * sy * sz
  {
  }

  /** Whether y1 may come before y2 in traversal t. */
  predicate Ordered(t: Traversal, y1: int, y2: int) {
    match t
    case Downward => y1 >= y2
    case Upward => y1 <= y2
  }

  lemma {:induction false} LayersOrdered(t: Traversal, r: Region, k: nat)
    requires WellFormed(r)
    ensures forall p :: p in Layers(t, r, k) ==> InFirstLayers(t, r, k, p.y)
    ensures forall i, j :: 0 <= i < j < |Layers(t, r, k)| ==>
      Ordered(t, Layers(t, r, k)[i].y, Layers(t, r, k)[j].y)
  {
    if k > 0 {
      LayersOrdered(t, r, k - 1);
      LayersExactlyOnce(t, r, k - 1);
      var prev, l := Layers(t, r, k - 1), Layer(r, LayerHeight(t, r, k - 1));
      LayerExactlyOnce(r, LayerHeight(t, r, k - 1));
      var s := prev + l;
      forall i, j | 0 <= i < j < |s| ensures Ordered(t, s[i].y, s[j].y) {
        if j < |prev| {
          assert s[i] == prev[i] && s[j] == prev[j];
        } else if i < |prev| {
          assert s[i] in prev && s[j] in l;
        } else {
          assert s[i] in l && s[j] in l;
        }
      }
    }
  }

  /** `DOWNWARD` visits higher blocks before lower ones; `UPWARD` the reverse. */
  lemma TraverseOrdered(t: Traversal, r: Region, i: int, j: int)
    requires WellFormed(r)
    requires 0 <= i < j < |Traverse(t, r)|
    ensures Ordered(t, Traverse(t, r)[i].y, Traverse(t, r)[j].y)
  {
    LayersOrdered(t, r, r.size.y);
  }
}
