/** The LVGL canvas the bed mesh is drawn on, as a finite map from painted pixels to colours. */
module Canvases {

  /** One 8-bit colour channel. */
  type Channel = c: int | 0 <= c < 256

  datatype Color = Color(r: Channel, g: Channel, b: Channel)

  type Pixel = (int, int)

  /** The pixels of a one-pixel-high rectangle. */
  function RowPixels(x: int, y: int, w: int): set<Pixel> {
    set i | x <= i < x + w :: (i, y)
  }

  /** Painting a set of pixels in one colour, over whatever was there. */
  function Paint(m: map<Pixel, Color>, s: set<Pixel>, c: Color): map<Pixel, Color> {
    map p | p in m.Keys + s :: if p in s then c else m[p]
  }

  lemma PaintTwice(m: map<Pixel, Color>, s: set<Pixel>, t: set<Pixel>, c: Color)
    ensures Paint(Paint(m, s, c), t, c) == Paint(m, s + t, c)
  {
  }

  class Canvas {
    const width: int
    const height: int
    var pixels: map<Pixel, Color>

    constructor (width: int, height: int)
      ensures this.width == width && this.height == height && pixels == map[]
    {
      this.width := width;
      this.height := height;
      pixels := map[];
    }

    /** One pixel-high rectangle; callers must prove that it lies on the canvas. */
    method DrawRow(x: int, y: int, w: int, color: Color)
      requires w > 0 && 0 <= x && x + w <= width && 0 <= y < height
      modifies this
      ensures pixels == Paint(old(pixels), RowPixels(x, y, w), color)
    {
      pixels := Paint(pixels, RowPixels(x, y, w), color);
    }
  }
}
