/** The whiteboard's value types (the `Transform`, `Position` and `WhiteboardItem` records). */
module WhiteboardTypes {
  import opened Wrappers

  /** A point in pixels or in canvas units. */
  datatype Point = Point(x: real, y: real)

  /** The camera: pan offset `x, y` and zoom factor `scale`. */
  datatype Transform = Transform(x: real, y: real, scale: real)

  /**
   * A card's geometry: centre `x, y`, paint order `z`, size, the expanded
   * flag and an optional rotation in degrees (absent as `None`).
   */
  datatype Position = Position(x: real, y: real, z: int, width: real, height: real,
                               expanded: bool, rotation: Option<real>)

  /** The content shown on a card; the engine reads only its slug. */
  datatype Payload = Payload(slug: string, title: string)

  /** A card: its id, its type tag (`album`, `snip`, `playlist`), its payload and geometry. */
  datatype Item = Item(id: string, kind: string, data: Payload, position: Position)
}
