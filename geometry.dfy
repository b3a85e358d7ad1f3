/** Axis-aligned integer rectangles, in the way pygame's Rect stores and compares them. */
module Geometry {

  /** A pygame Rect: top-left corner and a non-negative size. */
  datatype Rect = Rect(x: int, y: int, w: nat, h: nat) {

    function Right(): int { x + w }

    function Bottom(): int { y + h }

    /** pygame's `centerx`: the left edge plus half the width, rounded down. */
    function CenterX(): int { x + w / 2 }

    function CenterY(): int { y + h / 2 }

    /** The rectangle moved so that its bottom edge is at `b` (pygame's `rect.bottom = b`). */
    function WithBottom(b: int): (r: Rect)
      ensures r.Bottom() == b && r.x == x && r.w == w && r.h == h
    {
      Rect(x, b - h, w, h)
    }

    /** The rectangle moved so that its centre x is at `c` (pygame's `rect.centerx = c`). */
    function WithCenterX(c: int): (r: Rect)
      ensures r.CenterX() == c && r.y == y && r.w == w && r.h == h
    {
      Rect(c - w / 2, y, w, h)
    }
  }

  /** `colliderect`: the two rectangles share some interior area. */
  predicate Overlaps(a: Rect, b: Rect)
  {
    a.x < b.x + b.w && b.x < a.x + a.w && a.y < b.y + b.h && b.y < a.y + a.h
  }
}
