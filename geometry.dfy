/// Axis-aligned rectangles and the two pure tests both games use on them:
/// the AABB overlap test (checkAABBCollision) and the camera visibility test
/// (isOnScreen).
module Geometry {

  /// Top-left corner plus size, in canvas pixels (y grows downwards).
  datatype Rect = Rect(x: real, y: real, width: real, height: real)

  /// Default slack, in pixels, that isOnScreen adds on both sides of the view.
  const OnScreenMargin: real := 200.0

  /// checkAABBCollision: the two rectangles overlap, with four strict comparisons.
  predicate Overlaps(a: Rect, b: Rect)
  {
    a.x < b.x + b.width && a.x + a.width > b.x &&
    a.y < b.y + b.height && a.y + a.height > b.y
  }

  /// isOnScreen: the entity's horizontal extent reaches into the band
  /// [cameraX - margin, cameraX + screenWidth + margin]; the vertical position
  /// is not looked at.
  predicate IsOnScreen(e: Rect, cameraX: real, screenWidth: real, margin: real := OnScreenMargin)
  {
    e.x + e.width > cameraX - margin && e.x < cameraX + screenWidth + margin
  }

  /// A point strictly inside a rectangle.
  predicate Inside(r: Rect, px: real, py: real)
  {
    r.x < px < r.x + r.width && r.y < py < r.y + r.height
  }

  lemma OverlapsSymmetric(a: Rect, b: Rect)
    ensures Overlaps(a, b) <==> Overlaps(b, a)
  {
  }

  /// Rectangles that only share an edge (or a corner) do not collide.
  lemma SharedEdgeIsNoCollision(a: Rect, b: Rect)
    requires a.x + a.width == b.x || b.x + b.width == a.x ||
             a.y + a.height == b.y || b.y + b.height == a.y
    ensures !Overlaps(a, b)
  {
  }

  /// For rectangles of positive size the strict test means exactly that the two
  /// interiors share a point.
  lemma OverlapsIffCommonInteriorPoint(a: Rect, b: Rect)
    requires a.width > 0.0 && a.height > 0.0 && b.width > 0.0 && b.height > 0.0
    ensures Overlaps(a, b) <==> exists px: real, py: real :: Inside(a, px, py) && Inside(b, px, py)
  {
    if Overlaps(a, b) {
      var lx := if a.x < b.x then b.x else a.x;
      var hx := if a.x + a.width < b.x + b.width then a.x + a.width else b.x + b.width;
      var ly := if a.y < b.y then b.y else a.y;
      var hy := if a.y + a.height < b.y + b.height then a.y + a.height else b.y + b.height;
      assert Inside(a, (lx + hx) / 2.0, (ly + hy) / 2.0) && Inside(b, (lx + hx) / 2.0, (ly + hy) / 2.0);
    }
  }

  /// isOnScreen is the horizontal half of the overlap test against the view
  /// widened by the margin on both sides.
  lemma OnScreenIsOverlapWithWidenedView(e: Rect, cameraX: real, screenWidth: real, margin: real)
    ensures IsOnScreen(e, cameraX, screenWidth, margin) <==>
            Overlaps(Rect(e.x, 0.0, e.width, 1.0), Rect(cameraX - margin, 0.0, screenWidth + 2.0 * margin, 1.0))
  {
  }
}
