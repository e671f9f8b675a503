/**
 * The editor state the grid draws, which belongs to a collaborator: a bitmap
 * of colour indices, and optionally a floating layer (a detached piece of a
 * pending move or paste) positioned at an offset over it.
 */
module Image {
  import opened Optional

  /** A bitmap of colour indices; a cell never written reads as 0. */
  datatype Bitmap = Bitmap(width: nat, height: nat, pixels: map<(int, int), int>) {

    function Get(col: int, row: int): int {
      if (col, row) in pixels then pixels[(col, row)] else 0
    }

    function Set(col: int, row: int, color: int): (b: Bitmap)
      ensures b.width == width && b.height == height
      ensures b.Get(col, row) == color
      ensures forall c, r :: (c, r) != (col, row) ==> b.Get(c, r) == Get(c, r)
    {
      this.(pixels := pixels[(col, row) := color])
    }
  }

  datatype CanvasState = CanvasState(image: Bitmap, floatingLayer: Option<Bitmap>, layerOffsetX: int, layerOffsetY: int)
}
