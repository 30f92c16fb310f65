/** Axis-aligned rectangles with integer pixel coordinates, following the
    semantics of the pygame Rect that the game uses for the ball, both paddles
    and the on-screen buttons. Widths and heights are never negative in this
    model, so Dafny's Euclidean `/` on them agrees with C's truncating one. */
module Geometry {

  function Abs(n: int): (r: nat)
    ensures r == n || r == -n
  {
    if n < 0 then -n else n
  }

  function Min(a: int, b: int): (r: int)
    ensures r <= a && r <= b && (r == a || r == b)
  {
    if a < b then a else b
  }

  datatype Rect = Rect(x: int, y: int, w: int, h: int) {

    function Left(): int { x }
    function Right(): int { x + w }
    function Top(): int { y }
    function Bottom(): int { y + h }

    /** pygame's `centerx` reads x + w/2 (integer division): the midpoint,
        rounded toward the left edge when the width is odd. */
    function CenterX(): (c: int)
      ensures w >= 0 ==> Left() <= c <= Right() && 0 <= (Right() - c) - (c - Left()) <= 1
    {
      x + w / 2
    }

    /** Assigning `centerx` moves the rectangle so that the getter returns `c`. */
    function WithCenterX(c: int): (r: Rect)
      ensures r.CenterX() == c
      ensures r.y == y && r.w == w && r.h == h
    {
      Rect(c - w / 2, y, w, h)
    }

    /** Assigning `left` moves the rectangle horizontally, keeping its size. */
    function WithLeft(l: int): (r: Rect)
      ensures r.Left() == l && r.Right() == l + w
      ensures r.y == y && r.w == w && r.h == h
    {
      Rect(l, y, w, h)
    }

    /** Assigning `right` moves the rectangle horizontally, keeping its size. */
    function WithRight(rt: int): (r: Rect)
      ensures r.Right() == rt && r.Left() == rt - w
      ensures r.y == y && r.w == w && r.h == h
    {
      Rect(rt - w, y, w, h)
    }

    /** Assigning `x` and `y` together, keeping the size. */
    function WithPos(nx: int, ny: int): (r: Rect)
      ensures r.Left() == nx && r.Top() == ny
      ensures r.w == w && r.h == h
    {
      Rect(nx, ny, w, h)
    }

    /** `colliderect`: an empty rectangle collides with nothing; otherwise the
        open intervals of both axes must overlap, so touching edges do not count. */
    function CollideRect(o: Rect): (b: bool)
      ensures w == 0 || h == 0 || o.w == 0 || o.h == 0 ==> !b
      ensures Right() == o.Left() || o.Right() == Left() || Bottom() == o.Top() || o.Bottom() == Top() ==> !b
    {
      w != 0 && h != 0 && o.w != 0 && o.h != 0 &&
      x < o.x + o.w && o.x < x + w &&
      y < o.y + o.h && o.y < y + h
    }

    /** `collidepoint`: half-open on both axes, left <= px < right. */
    function CollidePoint(px: int, py: int): (b: bool)
      ensures px == x && py == y ==> (b <==> w > 0 && h > 0)
      ensures px == Right() || py == Bottom() ==> !b
    {
      x <= px < x + w && y <= py < y + h
    }
  }

  /** Setting `centerx` to the value it already has changes nothing. */
  lemma CenterXRoundTrip(r: Rect)
    ensures r.WithCenterX(r.CenterX()) == r
  {
  }

  /** Moving the centre by `d` moves the left edge by exactly `d`. */
  lemma ShiftCenterX(r: Rect, d: int)
    ensures r.WithCenterX(r.CenterX() + d) == r.WithLeft(r.x + d)
  {
  }

  /** Collision between rectangles does not depend on which one asks. */
  lemma CollideRectSymmetric(a: Rect, b: Rect)
    ensures a.CollideRect(b) <==> b.CollideRect(a)
  {
  }

  /** For non-empty rectangles, two rectangles collide exactly when
      they share a point under `collidepoint`. */
  lemma CollideRectIffCommonPoint(a: Rect, b: Rect)
    requires a.w > 0 && a.h > 0 && b.w > 0 && b.h > 0
    ensures a.CollideRect(b) <==> exists px, py :: a.CollidePoint(px, py) && b.CollidePoint(px, py)
  {
    if a.CollideRect(b) {
      var px := if a.x < b.x then b.x else a.x;
      var py := if a.y < b.y then b.y else a.y;
      assert a.CollidePoint(px, py) && b.CollidePoint(px, py);
    }
  }
}
