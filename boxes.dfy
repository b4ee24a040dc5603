/**
 * Box arithmetic of the converter: the nested `sorting` helper, `convert_labels`
 * (two corners in pixels to the normalized YOLO centre box) and the COCO
 * `[x, y, w, h]` to corner-pair step that `convert` does before calling it.
 * Python floats are modelled as exact reals.
 */
module Boxes {

  type Pixels = n: int | n > 0 witness 1

  /** The dimensions `img.shape` reports for a readable image: `shape[0]` rows, `shape[1]` columns. */
  datatype Shape = Shape(height: Pixels, width: Pixels)

  /** A YOLO box: centre and extents, as fractions of the image width and height. */
  datatype YoloBox = YoloBox(x: real, y: real, w: real, h: real)

  /** Two opposite corners of a box in pixels (the KITTI-style `x1, y1, x2, y2`). */
  datatype Corners = Corners(x1: real, y1: real, x2: real, y2: real)

  function Abs(v: real): real { if v < 0.0 then -v else v }

  /** `sorting(l1, l2)`: the pair as (larger, smaller); on a tie the second argument comes first. */
  function Sorting(l1: real, l2: real): (r: (real, real))
    ensures r.0 >= r.1
    ensures r == (l1, l2) || r == (l2, l1)
    ensures r.0 - r.1 == Abs(l1 - l2)
    ensures r.0 + r.1 == l1 + l2
    ensures l1 <= l2 ==> r == (l2, l1)
  {
    if l1 > l2 then (l1, l2) else (l2, l1)
  }

  /** Selecting the larger and the smaller does not depend on the order of the arguments. */
  lemma SortingSymmetric(l1: real, l2: real)
    ensures Sorting(l1, l2) == Sorting(l2, l1)
  {
  }

  /** `v * (1./s)`: the scaling by the reciprocal of an image dimension. */
  function Scale(v: real, s: Pixels): real
  {
    v * (1.0 / s as real)
  }

  /** `convert_labels` with the image dimensions passed in instead of read from the image file. */
  function ConvertLabels(size: Shape, x1: real, y1: real, x2: real, y2: real): (b: YoloBox)
    ensures b.w >= 0.0 && b.h >= 0.0
  {
    var (xmax, xmin) := Sorting(x1, x2);
    var (ymax, ymin) := Sorting(y1, y2);
    var x := (xmin + xmax) / 2.0;
    var y := (ymin + ymax) / 2.0;
    var w := xmax - xmin;
    var h := ymax - ymin;
    YoloBox(Scale(x, size.width), Scale(y, size.height), Scale(w, size.width), Scale(h, size.height))
  }

  /**
   * Denormalizing recovers the box: scaled back by the image size, the result is
   * the centre of the two corners and the distance between them on each axis.
   */
  lemma Denormalize(size: Shape, x1: real, y1: real, x2: real, y2: real)
    ensures var b := ConvertLabels(size, x1, y1, x2, y2);
      && b.x * size.width as real == (x1 + x2) / 2.0
      && b.y * size.height as real == (y1 + y2) / 2.0
      && b.w * size.width as real == Abs(x2 - x1)
      && b.h * size.height as real == Abs(y2 - y1)
  {
  }

  /** `[bbox[0], bbox[1], bbox[2] + bbox[0], bbox[3] + bbox[1]]`: the top-left corner and the one `w, h` further on. */
  function CocoToKitti(bbox: seq<real>): (c: Corners)
    requires |bbox| >= 4
    ensures c.x1 == bbox[0] && c.y1 == bbox[1]
    ensures c.x2 - c.x1 == bbox[2] && c.y2 - c.y1 == bbox[3]
  {
    Corners(bbox[0], bbox[1], bbox[2] + bbox[0], bbox[3] + bbox[1])
  }

  /** Scaling a value between 0 and the dimension gives a fraction in `[0, 1]`. */
  lemma ScaleUnit(v: real, s: Pixels)
    requires 0.0 <= v <= s as real
    ensures 0.0 <= Scale(v, s) <= 1.0
  {
  }

  /** The three YOLO boxes a corner pair can be presented as (either corner swapped) coincide. */
  lemma CornerOrderIrrelevant(size: Shape, x1: real, y1: real, x2: real, y2: real)
    ensures ConvertLabels(size, x2, y1, x1, y2) == ConvertLabels(size, x1, y1, x2, y2)
    ensures ConvertLabels(size, x1, y2, x2, y1) == ConvertLabels(size, x1, y1, x2, y2)
  {
  }

  /** Corners inside the image give a normalized box: all four components in `[0, 1]`. */
  lemma Normalized(size: Shape, x1: real, y1: real, x2: real, y2: real)
    requires 0.0 <= x1 <= size.width as real && 0.0 <= x2 <= size.width as real
    requires 0.0 <= y1 <= size.height as real && 0.0 <= y2 <= size.height as real
    ensures var b := ConvertLabels(size, x1, y1, x2, y2);
      0.0 <= b.x <= 1.0 && 0.0 <= b.y <= 1.0 && 0.0 <= b.w <= 1.0 && 0.0 <= b.h <= 1.0
  {
    var (xmax, xmin) := Sorting(x1, x2);
    var (ymax, ymin) := Sorting(y1, y2);
    ScaleUnit((xmin + xmax) / 2.0, size.width);
    ScaleUnit((ymin + ymax) / 2.0, size.height);
    ScaleUnit(xmax - xmin, size.width);
    ScaleUnit(ymax - ymin, size.height);
  }

  /** COCO `[bx, by, bw, bh]` becomes the YOLO box `((bx + bw/2)/W, (by + bh/2)/H, |bw|/W, |bh|/H)`. */
  lemma CocoToYolo(size: Shape, bbox: seq<real>)
    requires |bbox| >= 4
    ensures var c := CocoToKitti(bbox);
      var W, H := size.width as real, size.height as real;
      ConvertLabels(size, c.x1, c.y1, c.x2, c.y2)
        == YoloBox((bbox[0] + bbox[2] / 2.0) / W, (bbox[1] + bbox[3] / 2.0) / H,
                   Abs(bbox[2]) / W, Abs(bbox[3]) / H)
  {
  }

  /** Example: a 100 x 50 image and COCO box `[10, 10, 20, 10]` give `(0.2, 0.3, 0.2, 0.2)`. */
  lemma Example()
    ensures var c := CocoToKitti([10.0, 10.0, 20.0, 10.0]);
      ConvertLabels(Shape(50, 100), c.x1, c.y1, c.x2, c.y2) == YoloBox(0.2, 0.3, 0.2, 0.2)
  {
  }
}
