/** The parcel grid of the default generator: the tiling constants, the map
    from a parcel id to its bottom corner and back, the per-column terrain
    classification, and the spawn and home locations. All of it is pure
    integer arithmetic on the generator options. */
module ParcelGrid {
  import opened KotlinInt
  import opened Regions
  import opened Blocks

  /** The generator options the grid uses (the block types are the `Material`
      values). */
  datatype Options = Options(parcelSize: int, pathSize: int, floorHeight: int, offsetX: int, offsetZ: int)

  /** Options the grid can be built from: a parcel at least one block wide and
      a path that is not negative, so that a section is never empty. */
  predicate ValidOptions(o: Options) {
    o.parcelSize > 0 && o.pathSize >= 0
  }

  /** What a column gets: the surface block type and the height it is placed at. */
  datatype Surface = Surface(material: Material, height: int)

  /** `sectionSize`: the period of the tiling, one parcel and one path. */
  function SectionSize(o: Options): (s: int)
    requires ValidOptions(o)
    ensures s >= o.parcelSize && s > 0
  {
    o.parcelSize + o.pathSize
  }

  /** `pathOffset`: where the parcel starts inside its section. Either parity
      of the path width gives half the path, rounded down, plus one. */
  function PathOffset(o: Options): (r: int)
    requires ValidOptions(o)
    ensures r == o.pathSize / 2 + 1
    ensures 1 <= r <= o.pathSize + 1
  {
    Div(if Rem(o.pathSize, 2) == 0 then o.pathSize + 2 else o.pathSize + 1, 2)
  }

  /** `makePathMain`: whether the main path material is laid. */
  predicate MakePathMain(o: Options) {
    o.pathSize > 2
  }

  /** `makePathAlt`: whether the ring of alternative path material is laid. */
  predicate MakePathAlt(o: Options) {
    o.pathSize > 4
  }

  /** `getBottomBlock`: the minimum-x, minimum-z world column of a parcel. */
  function GetBottomBlock(o: Options, id: Vec2i): (b: Vec2i)
    requires ValidOptions(o)
    ensures (b.x - o.offsetX - PathOffset(o)) % SectionSize(o) == 0
    ensures (b.x - o.offsetX - PathOffset(o)) / SectionSize(o) == id.x
    ensures (b.z - o.offsetZ - PathOffset(o)) % SectionSize(o) == 0
    ensures (b.z - o.offsetZ - PathOffset(o)) / SectionSize(o) == id.z
  {
    var b := Vec2i(SectionSize(o) * id.x + PathOffset(o) + o.offsetX,
                   SectionSize(o) * id.z + PathOffset(o) + o.offsetZ);
    DivModUnique(b.x - o.offsetX - PathOffset(o), SectionSize(o), id.x, 0);
    DivModUnique(b.z - o.offsetZ - PathOffset(o), SectionSize(o), id.z, 0);
    b
  }

  /** Whether world column (x, z) lies in the parcel-size square at the bottom block of `id`. */
  predicate InParcel(o: Options, id: Vec2i, x: int, z: int)
    requires ValidOptions(o)
  {
    var b := GetBottomBlock(o, id);
    b.x <= x < b.x + o.parcelSize && b.z <= z < b.z + o.parcelSize
  }

  /** `convertBlockLocationToId`: the parcel whose floor holds world column
      (x, z), or None on a path or wall. The id is the floor quotient of the
      shifted coordinates by the section size, which is what the truncating
      quotient of an exact multiple gives, for negative coordinates too. */
  function ConvertBlockLocationToId(o: Options, x: int, z: int): (r: Option<Vec2i>)
    requires ValidOptions(o)
    ensures r.Some? <==>
      (x - o.offsetX - PathOffset(o)) % SectionSize(o) < o.parcelSize &&
      (z - o.offsetZ - PathOffset(o)) % SectionSize(o) < o.parcelSize
    ensures r.Some? ==> r.value == Vec2i((x - o.offsetX - PathOffset(o)) / SectionSize(o),
                                         (z - o.offsetZ - PathOffset(o)) / SectionSize(o))
  {
    var sectionSize := SectionSize(o);
    var parcelSize := o.parcelSize;
    var absX := x - o.offsetX - PathOffset(o);
    var absZ := z - o.offsetZ - PathOffset(o);
    var modX := UMod(absX, sectionSize);
    var modZ := UMod(absZ, sectionSize);
    if 0 <= modX < parcelSize && 0 <= modZ < parcelSize then
      FloorMultiple(absX, sectionSize);
      FloorMultiple(absZ, sectionSize);
      DivExact(absX - modX, sectionSize);
      DivExact(absZ - modZ, sectionSize);
      Some(Vec2i(Div(absX - modX, sectionSize), Div(absZ - modZ, sectionSize)))
    else
      None
  }

  /** The locator and the bottom corner agree exactly: (x, z) maps to `id`
      if and only if it lies in the parcel square at `id`'s bottom block. */
  lemma LocateIff(o: Options, id: Vec2i, x: int, z: int)
    requires ValidOptions(o)
    ensures ConvertBlockLocationToId(o, x, z) == Some(id) <==> InParcel(o, id, x, z)
  {
    var s, po := SectionSize(o), PathOffset(o);
    AxisLocate(x - o.offsetX - po, s, o.parcelSize, id.x);
    AxisLocate(z - o.offsetZ - po, s, o.parcelSize, id.z);
  }

  /** One axis of LocateIff: a floor remainder below p with quotient k is the
      same as an offset of less than p from the k-th multiple. */
  lemma AxisLocate(a: int, s: int, p: int, k: int)
    requires 0 < p <= s
    ensures (a % s < p && a / s == k) <==> 0 <= a - s * k < p
  {
    if 0 <= a - s * k < p {
      DivModUnique(a, s, k, a - s * k);
    }
    if a % s < p && a / s == k {
      assert a == s * (a / s) + a % s;
    }
  }

  /** None exactly where no parcel's square holds the column. */
  lemma LocateNone(o: Options, x: int, z: int)
    requires ValidOptions(o)
    ensures ConvertBlockLocationToId(o, x, z) == None <==> forall id :: !InParcel(o, id, x, z)
  {
    if ConvertBlockLocationToId(o, x, z) == None {
      forall id ensures !InParcel(o, id, x, z) {
        LocateIff(o, id, x, z);
      }
    } else {
      LocateIff(o, ConvertBlockLocationToId(o, x, z).value, x, z);
    }
  }

  /** Round trip: the bottom block of a parcel is located in that parcel. */
  lemma BottomBlockRoundTrip(o: Options, id: Vec2i)
    requires ValidOptions(o)
    ensures ConvertBlockLocationToId(o, GetBottomBlock(o, id).x, GetBottomBlock(o, id).z) == Some(id)
  {
    LocateIff(o, id, GetBottomBlock(o, id).x, GetBottomBlock(o, id).z);
  }

  /** Surface of a column at section-relative offsets (x, z), where the parcel
      floor is [0, parcelSize) on both axes. The cases are tried in order:
      floor, the one-block wall ring, the alternative path ring, the main
      path, and otherwise a wall. Walls stand one block higher. */
  function ClassifyColumn(o: Options, x: int, z: int): (s: Surface)
    ensures s.height == o.floorHeight || s.height == o.floorHeight + 1
    ensures s.material == FloorType <==> 0 <= x < o.parcelSize && 0 <= z < o.parcelSize
    ensures s.height == o.floorHeight + 1 <==> s.material == WallType
    ensures s.material != AirType && s.material != FillType
    ensures (!(0 <= x < o.parcelSize && 0 <= z < o.parcelSize) && -1 <= x <= o.parcelSize && -1 <= z <= o.parcelSize)
      ==> s == Surface(WallType, o.floorHeight + 1)
    ensures s.material == PathAltType <==>
      MakePathAlt(o) && -2 <= x < o.parcelSize + 2 && -2 <= z < o.parcelSize + 2 &&
      !(-1 <= x <= o.parcelSize && -1 <= z <= o.parcelSize)
    ensures s.material == PathMainType <==>
      MakePathMain(o) && !(-1 <= x <= o.parcelSize && -1 <= z <= o.parcelSize) &&
      !(MakePathAlt(o) && -2 <= x < o.parcelSize + 2 && -2 <= z < o.parcelSize + 2)
  {
    var parcelSize := o.parcelSize;
    var floorHeight := o.floorHeight;
    if 0 <= x < parcelSize && 0 <= z < parcelSize then Surface(FloorType, floorHeight)
    else if -1 <= x <= parcelSize && -1 <= z <= parcelSize then Surface(WallType, floorHeight + 1)
    else if MakePathAlt(o) && -2 <= x < parcelSize + 2 && -2 <= z < parcelSize + 2 then Surface(PathAltType, floorHeight)
    else if MakePathMain(o) then Surface(PathMainType, floorHeight)
    else Surface(WallType, floorHeight + 1)
  }

  /** A coordinate relative to the grid origin, folded into one section and
      shifted so that the parcel floor starts at 0. */
  function SectionOffset(o: Options, a: int): (r: int)
    requires ValidOptions(o)
    ensures -PathOffset(o) <= r < SectionSize(o) - PathOffset(o)
  {
    UMod(a, SectionSize(o)) - PathOffset(o)
  }

  /** The surface the generator gives world column (wx, wz). */
  function WorldSurface(o: Options, wx: int, wz: int): (s: Surface)
    requires ValidOptions(o)
    ensures s.height == o.floorHeight || s.height == o.floorHeight + 1
    ensures s.material == FloorType <==>
      0 <= SectionOffset(o, wx - o.offsetX) < o.parcelSize && 0 <= SectionOffset(o, wz - o.offsetZ) < o.parcelSize
  {
    ClassifyColumn(o, SectionOffset(o, wx - o.offsetX), SectionOffset(o, wz - o.offsetZ))
  }

  /** The terrain repeats with the section size along both axes. */
  lemma WorldSurfacePeriodic(o: Options, wx: int, wz: int, i: int, j: int)
    requires ValidOptions(o)
    ensures WorldSurface(o, wx + SectionSize(o) * i, wz + SectionSize(o) * j) == WorldSurface(o, wx, wz)
  {
    var s := SectionSize(o);
    assert wx + s * i - o.offsetX == (wx - o.offsetX) + s * i;
    assert wz + s * j - o.offsetZ == (wz - o.offsetZ) + s * j;
    ModAddMultiple(wx - o.offsetX, i, s);
    ModAddMultiple(wz - o.offsetZ, j, s);
  }

  /** One axis of the generator/locator agreement. */
  lemma AxisFloorAgrees(o: Options, a: int)
    requires ValidOptions(o) && o.pathSize >= 1
    ensures (0 <= SectionOffset(o, a) < o.parcelSize) <==> (a - PathOffset(o)) % SectionSize(o) < o.parcelSize
  {
    var s, po := SectionSize(o), PathOffset(o);
    var q, m := a / s, a % s;
    assert a == s * q + m;
    if m >= po {
      DivModUnique(a - po, s, q, m - po);
    } else {
      DivModUnique(a - po, s, q - 1, m - po + s);
    }
  }

  /** Generator/locator consistency: when there is a path, the generator lays
      floor on a world column exactly when the locator finds a parcel there. */
  lemma FloorIffLocated(o: Options, wx: int, wz: int)
    requires ValidOptions(o) && o.pathSize >= 1
    ensures WorldSurface(o, wx, wz).material == FloorType <==> ConvertBlockLocationToId(o, wx, wz).Some?
  {
    AxisFloorAgrees(o, wx - o.offsetX);
    AxisFloorAgrees(o, wz - o.offsetZ);
  }

  /** Without a path the two disagree: with parcel size 8 the locator puts
      world column (0, 0) in parcel (-1, -1) while the generator builds a wall there. */
  lemma ZeroPathDisagreement()
    ensures var o := Options(8, 0, 64, 0, 0);
      ConvertBlockLocationToId(o, 0, 0) == Some(Vec2i(-1, -1)) &&
      WorldSurface(o, 0, 0) == Surface(WallType, 65)
  {
    var o := Options(8, 0, 64, 0, 0);
    assert PathOffset(o) == 1;
    assert SectionOffset(o, 0) == -1;
  }

  /** One axis of a column within one block of a parcel, folded into its section. */
  lemma AxisNearParcel(o: Options, i: int, d: int)
    requires ValidOptions(o) && o.pathSize >= 1
    requires -1 <= d <= o.parcelSize
    ensures var f := SectionOffset(o, SectionSize(o) * i + PathOffset(o) + d);
      f == d || (d == o.parcelSize && o.pathSize <= 2 && f == -o.pathSize)
  {
    var s, po := SectionSize(o), PathOffset(o);
    var a := s * i + po + d;
    if po + d < s {
      DivModUnique(a, s, i, po + d);
    } else {
      DivModUnique(a, s, i + 1, po + d - s);
    }
  }

  /** Every parcel is enclosed by wall: each column of the one-block ring
      around its floor gets the wall type, one block above the floor. */
  lemma ParcelEnclosedByWall(o: Options, id: Vec2i, x: int, z: int)
    requires ValidOptions(o) && o.pathSize >= 1
    requires GetBottomBlock(o, id).x - 1 <= x <= GetBottomBlock(o, id).x + o.parcelSize
    requires GetBottomBlock(o, id).z - 1 <= z <= GetBottomBlock(o, id).z + o.parcelSize
    requires !InParcel(o, id, x, z)
    ensures WorldSurface(o, x, z) == Surface(WallType, o.floorHeight + 1)
  {
    var b := GetBottomBlock(o, id);
    var s, po := SectionSize(o), PathOffset(o);
    assert x - o.offsetX == s * id.x + po + (x - b.x);
    assert z - o.offsetZ == s * id.z + po + (z - b.z);
    AxisNearParcel(o, id.x, x - b.x);
    AxisNearParcel(o, id.z, z - b.z);
  }

  /** `makePathMain` decides the main path: the first column of every section,
      diagonal to the parcel's bottom block and `pathOffset` away from it on
      both axes, is main path exactly when the flag is set. */
  lemma MainPathLaid(o: Options, id: Vec2i)
    requires ValidOptions(o)
    ensures var b, po := GetBottomBlock(o, id), PathOffset(o);
      WorldSurface(o, b.x - po, b.z - po).material == PathMainType <==> MakePathMain(o)
  {
    var s, po := SectionSize(o), PathOffset(o);
    DivModUnique(s * id.x, s, id.x, 0);
    DivModUnique(s * id.z, s, id.z, 0);
    assert SectionOffset(o, s * id.x) == -po && SectionOffset(o, s * id.z) == -po;
  }

  /** `makePathAlt` decides the alternative path: the column two blocks
      diagonally outside a parcel's bottom block is alternative path exactly
      when the flag is set. */
  lemma AltPathLaid(o: Options, id: Vec2i)
    requires ValidOptions(o)
    ensures var b := GetBottomBlock(o, id);
      WorldSurface(o, b.x - 2, b.z - 2).material == PathAltType <==> MakePathAlt(o)
  {
    var b := GetBottomBlock(o, id);
    var fx := AxisTwoBefore(o, id.x);
    var fz := AxisTwoBefore(o, id.z);
    assert b.x - 2 - o.offsetX == SectionSize(o) * id.x + PathOffset(o) - 2;
    assert b.z - 2 - o.offsetZ == SectionSize(o) * id.z + PathOffset(o) - 2;
    assert WorldSurface(o, b.x - 2, b.z - 2) == ClassifyColumn(o, fx, fz);
  }

  /** The section offset two blocks before a parcel's first column: -2 when
      the path is at least two wide on that side, else the section's last
      column, which lies in the wall ring. */
  function AxisTwoBefore(o: Options, i: int): (f: int)
    requires ValidOptions(o)
    ensures f == SectionOffset(o, SectionSize(o) * i + PathOffset(o) - 2)
    ensures PathOffset(o) >= 2 ==> f == -2
    ensures PathOffset(o) < 2 ==> -1 <= f < o.parcelSize
  {
    var s, po := SectionSize(o), PathOffset(o);
    if po >= 2 then
      DivModUnique(s * i + po - 2, s, i, po - 2);
      -2
    else
      DivModUnique(s * i + po - 2, s, i - 1, s - 1);
      s - 1 - po
  }

  /** A location with real coordinates. */
  datatype Location = Location(x: real, y: real, z: real)

  /** `getHomeLocation` without the fixed facing: the bottom block's x, one
      above the floor, and the middle of the parcel along z. */
  function HomeLocation(o: Options, id: Vec2i): (l: Location)
    requires ValidOptions(o)
    ensures l.x == GetBottomBlock(o, id).x as real
    ensures l.y == (o.floorHeight + 1) as real
    ensures 2.0 * l.z == (2 * GetBottomBlock(o, id).z + o.parcelSize - 1) as real
    ensures ConvertBlockLocationToId(o, l.x.Floor, l.z.Floor) == Some(id)
  {
    var bottom := GetBottomBlock(o, id);
    var l := Location(bottom.x as real, o.floorHeight as real + 1.0, bottom.z as real + (o.parcelSize - 1) as real / 2.0);
    assert l.x.Floor == bottom.x;
    assert bottom.z <= l.z.Floor < bottom.z + o.parcelSize;
    LocateIff(o, id, l.x.Floor, l.z.Floor);
    l
  }

  /** `getFixedSpawnLocation`: the grid origin, one above the floor, shifted
      half a block on both axes when the parcel size is even. */
  function FixedSpawnLocation(o: Options): (l: Location)
    requires ValidOptions(o)
    ensures l.x.Floor == o.offsetX && l.z.Floor == o.offsetZ && l.y == (o.floorHeight + 1) as real
    ensures (l.x == o.offsetX as real + 0.5) <==> o.parcelSize % 2 == 0
    ensures (l.z == o.offsetZ as real + 0.5) <==> o.parcelSize % 2 == 0
    ensures o.parcelSize % 2 != 0 ==> l.x == o.offsetX as real && l.z == o.offsetZ as real
    ensures o.pathSize >= 1 ==> ConvertBlockLocationToId(o, l.x.Floor, l.z.Floor) == None
  {
    var fix := if o.parcelSize % 2 == 0 then 0.5 else 0.0;
    var l := Location(o.offsetX as real + fix, o.floorHeight as real + 1.0, o.offsetZ as real + fix);
    assert l.x.Floor == o.offsetX && l.z.Floor == o.offsetZ;
    DivModUnique(-PathOffset(o), SectionSize(o), -1, SectionSize(o) - PathOffset(o));
    l
  }

  /** The layout with parcel size 8, path width 3 and floor height 64. */
  lemma ExampleLayout()
    ensures var o := Options(8, 3, 64, 0, 0);
      SectionSize(o) == 11 && PathOffset(o) == 2 && MakePathMain(o) && !MakePathAlt(o) &&
      GetBottomBlock(o, Vec2i(0, 0)) == Vec2i(2, 2) &&
      ConvertBlockLocationToId(o, 2, 2) == Some(Vec2i(0, 0)) &&
      WorldSurface(o, 1, 5) == Surface(WallType, 65) &&
      WorldSurface(o, 10, 5) == Surface(WallType, 65) &&
      WorldSurface(o, 5, 11) == Surface(PathMainType, 64)
  {
    var o := Options(8, 3, 64, 0, 0);
    LocateIff(o, Vec2i(0, 0), 2, 2);
    assert SectionOffset(o, 1) == -1 && SectionOffset(o, 5) == 3;
    assert SectionOffset(o, 10) == 8 && SectionOffset(o, 11) == -2;
  }
}
