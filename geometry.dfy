/** Axis-aligned rectangles and pygame's rectangle collision test. */
module Geometry {

  /** A pygame.Rect: left and top corner, width and height in pixels. */
  datatype Rect = Rect(left: int, top: int, width: nat, height: nat)

  /** Rectangle r covers the pixel whose top-left corner is (px, py). */
  predicate Covers(r: Rect, px: int, py: int) {
    r.left <= px < r.left + r.width && r.top <= py < r.top + r.height
  }

  /**
   * pygame.Rect.colliderect: empty rectangles collide with nothing, and the
   * intervals must overlap strictly on both axes, so rectangles that only
   * share an edge do not collide.
   */
  predicate Collide(a: Rect, b: Rect) {
    a.width > 0 && a.height > 0 && b.width > 0 && b.height > 0 &&
    a.left < b.left + b.width && b.left < a.left + a.width &&
    a.top < b.top + b.height && b.top < a.top + a.height
  }

  /** Two rectangles collide exactly when some pixel lies in both. */
  lemma CollideIffSharedPixel(a: Rect, b: Rect)
    ensures Collide(a, b) <==> exists px, py :: Covers(a, px, py) && Covers(b, px, py)
  {
    if Collide(a, b) {
      var px := if a.left < b.left then b.left else a.left;
      var py := if a.top < b.top then b.top else a.top;
      assert Covers(a, px, py) && Covers(b, px, py);
    }
  }
}
