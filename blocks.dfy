/** What the grid, the host and the generator share: an optional value and
    the block types the generator places. */
module Blocks {

  datatype Option<T> = None | Some(value: T)

  /** The block types the generator places; `AirType` is what clearing puts above the floor. */
  datatype Material = AirType | FloorType | WallType | PathMainType | PathAltType | FillType
}
