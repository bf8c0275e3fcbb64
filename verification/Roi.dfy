/** Motion boxes: from grid bounds to a box in frame pixels. */
module Rois {
  import opened Common

  /** Bounds of grid cells, both ends included. */
  datatype Bounds = Bounds(minx: int, miny: int, maxx: int, maxy: int)

  datatype Roi = Roi(active: bool, x: int, y: int, w: int, h: int, changed: int)

  const NO_ROI := Roi(false, 0, 0, 0, 0, 0)

  /** The bounds scaled by ds, grown by a fifth of their size on each side and cut to the frame. */
  function RoiOf(b: Bounds, ds: int, width: int, height: int, changed: int): Roi {
    var x0, y0, x1, y1 := b.minx * ds, b.miny * ds, (b.maxx + 1) * ds, (b.maxy + 1) * ds;
    var mx, my := Fifth(x1 - x0), Fifth(y1 - y0);
    var left, top := Max(0, x0 - mx), Max(0, y0 - my);
    Roi(true, left, top, Min(width, x1 + mx) - left, Min(height, y1 + my) - top, changed)
  }

  /** A fifth, rounded toward zero. */
  function Fifth(v: int): int { if v >= 0 then v / 5 else -((-v) / 5) }

  lemma RoiFlags(b: Bounds, ds: int, width: int, height: int, changed: int)
    ensures RoiOf(b, ds, width, height, changed).active && RoiOf(b, ds, width, height, changed).changed == changed
  {}

  /** Inside the frame, and not empty. */
  predicate InFrame(r: Roi, width: int, height: int) {
    0 <= r.x && 0 <= r.y && r.w > 0 && r.h > 0 && r.x + r.w <= width && r.y + r.h <= height
  }

  /** All pixels of cell (i, j) lie in the box. */
  predicate HoldsCell(r: Roi, i: int, j: int, ds: int) {
    r.x <= i * ds && (i + 1) * ds <= r.x + r.w && r.y <= j * ds && (j + 1) * ds <= r.y + r.h
  }

  lemma Scaled(a: int, b: int, c: int, ds: int, size: int)
    requires ds > 0 && 0 <= a <= b <= c && c < size / ds
    ensures 0 <= a * ds <= b * ds && (b + 1) * ds <= (c + 1) * ds <= size && a * ds + ds <= (c + 1) * ds
  {
    Product(a, b, ds);
    Product(b + 1, c + 1, ds);
    Product(a + 1, c + 1, ds);
    Product(c + 1, size / ds, ds);
    Product(0, a, ds);
    QuotientFits(size, ds);
  }

  lemma Product(a: int, b: int, ds: int)
    requires ds > 0 && a <= b
    ensures a * ds <= b * ds
  {}

  lemma QuotientFits(size: int, ds: int)
    requires ds > 0
    ensures size / ds * ds <= size
  {}

  /** Whatever cells of the frame's grid the bounds hold, the box lies in the frame and holds them. */
  lemma RoiHoldsBounds(b: Bounds, ds: int, width: int, height: int, changed: int, i: int, j: int)
    requires ds > 0 && 0 <= b.minx <= i <= b.maxx < width / ds && 0 <= b.miny <= j <= b.maxy < height / ds
    ensures InFrame(RoiOf(b, ds, width, height, changed), width, height)
    ensures HoldsCell(RoiOf(b, ds, width, height, changed), i, j, ds) && RoiOf(b, ds, width, height, changed).changed == changed
  {
    Scaled(b.minx, i, b.maxx, ds, width);
    Scaled(b.miny, j, b.maxy, ds, height);
  }

  /** The margin: away from the frame's edges the box lies centred on the bounds and is between 7/5 of their size less 2
      pixels and 7/5 of it, each way; at an edge it is smaller. */
  lemma RoiMargin(b: Bounds, ds: int, width: int, height: int, changed: int)
    requires ds > 0 && 0 <= b.minx <= b.maxx < width / ds && 0 <= b.miny <= b.maxy < height / ds
    ensures var r := RoiOf(b, ds, width, height, changed);
      var w, h := (b.maxx + 1) * ds - b.minx * ds, (b.maxy + 1) * ds - b.miny * ds;
      && 5 * r.w <= 7 * w && 5 * r.h <= 7 * h
      && (0 < r.x && r.x + r.w < width ==> r.x + (r.x + r.w) == b.minx * ds + (b.maxx + 1) * ds && 5 * r.w > 7 * w - 10)
      && (0 < r.y && r.y + r.h < height ==> r.y + (r.y + r.h) == b.miny * ds + (b.maxy + 1) * ds && 5 * r.h > 7 * h - 10)
  {
    Scaled(b.minx, b.minx, b.maxx, ds, width);
    Scaled(b.miny, b.miny, b.maxy, ds, height);
    Margin(b.minx * ds, (b.maxx + 1) * ds, width);
    Margin(b.miny * ds, (b.maxy + 1) * ds, height);
  }

  lemma Margin(from: int, to: int, size: int)
    requires 0 <= from < to <= size
    ensures var m := Fifth(to - from); var left := Max(0, from - m); var right := Min(size, to + m);
      && 5 * (right - left) <= 7 * (to - from)
      && (0 < left && right < size ==> left + right == from + to && 5 * (right - left) > 7 * (to - from) - 10)
  {}

  /** The changed cells all boxes count. */
  function TotalChanged(rs: seq<Roi>): int {
    if rs == [] then 0 else TotalChanged(Front(rs)) + Last(rs).changed
  }
}
