/** Small Option type used for "no value" results (an unset direction,
    a failed placement, a search that found nothing). */
module Options {
  datatype Option<+T> = None | Some(value: T)
}

/** Positions, texture sizes and the axis-aligned bounding-box test
    shared by barrels, sandbags, bullets and soldiers. */
module Geometry {

  /** Texture sizes are SFML `Vector2u` components: 32-bit unsigned. */
  const U32: int := 0x1_0000_0000
  type u32 = x: int | 0 <= x < U32

  /** Sprite positions. Every position the game computes is integral
      (random draws, integer offsets, a speed of 18), so `int` is used. */
  datatype Vec = Vec(x: int, y: int) {
    function Plus(d: Vec): Vec { Vec(x + d.x, y + d.y) }
  }

  /** An unsigned texture extent (`sf::Vector2u`). */
  datatype Vec2u = Vec2u(x: u32, y: u32)

  const Zero: Vec := Vec(0, 0)

  /** Unsigned 32-bit subtraction, wrapping modulo 2^32. */
  function WrapSub(a: u32, b: u32): (r: u32)
    ensures b <= a ==> r == a - b
    ensures a < b ==> r == a - b + U32
  {
    (a - b) % U32
  }

  /** Unsigned 32-bit addition, wrapping modulo 2^32. */
  function WrapAdd(a: u32, b: u32): (r: u32)
    ensures a + b < U32 ==> r == a + b
    ensures U32 <= a + b ==> r == a + b - U32
  {
    (a + b) % U32
  }

  /** Component-wise `Vector2u` subtraction and addition. */
  function SubU(a: Vec2u, b: Vec2u): Vec2u { Vec2u(WrapSub(a.x, b.x), WrapSub(a.y, b.y)) }
  function AddU(a: Vec2u, b: Vec2u): Vec2u { Vec2u(WrapAdd(a.x, b.x), WrapAdd(a.y, b.y)) }

  /** The collision test of the game: the gap between the two x
      coordinates may not exceed the width of the leftmost box, and the
      gap between the two y coordinates may not exceed the height of the
      uppermost box. Equal coordinates count as the first box being
      leftmost (uppermost). */
  predicate IsCollide(pos1: Vec, size1: Vec2u, pos2: Vec, size2: Vec2u) {
    var xDiff := if pos1.x <= pos2.x then pos2.x - pos1.x else pos1.x - pos2.x;
    var xLimit := if pos1.x <= pos2.x then size1.x else size2.x;
    if xLimit >= xDiff then
      var yDiff := if pos1.y <= pos2.y then pos2.y - pos1.y else pos1.y - pos2.y;
      var yLimit := if pos1.y <= pos2.y then size1.y else size2.y;
      yLimit >= yDiff
    else
      false
  }

  /** Independent reading of a box: the closed rectangle
      [x, x + w] x [y, y + h]. */
  predicate InBox(p: Vec, pos: Vec, size: Vec2u) {
    pos.x <= p.x <= pos.x + size.x && pos.y <= p.y <= pos.y + size.y
  }

  /** Two closed intervals [a, a + la] and [b, b + lb] meet. */
  predicate Meet(a: int, la: nat, b: int, lb: nat) {
    a <= b + lb && b <= a + la
  }

  /** The test is exactly "the closed intervals meet on both axes". */
  lemma CollideIffIntervalsMeet(pos1: Vec, size1: Vec2u, pos2: Vec, size2: Vec2u)
    ensures IsCollide(pos1, size1, pos2, size2)
        <==> Meet(pos1.x, size1.x, pos2.x, size2.x) && Meet(pos1.y, size1.y, pos2.y, size2.y)
  {
  }

  /** The test holds exactly when some point lies in both closed boxes. */
  lemma CollideIffCommonPoint(pos1: Vec, size1: Vec2u, pos2: Vec, size2: Vec2u)
    ensures IsCollide(pos1, size1, pos2, size2)
        <==> exists p: Vec :: InBox(p, pos1, size1) && InBox(p, pos2, size2)
  {
    CollideIffIntervalsMeet(pos1, size1, pos2, size2);
    if IsCollide(pos1, size1, pos2, size2) {
      var p := Vec(if pos1.x <= pos2.x then pos2.x else pos1.x,
                   if pos1.y <= pos2.y then pos2.y else pos1.y);
      assert InBox(p, pos1, size1) && InBox(p, pos2, size2);
    }
  }

  /** The test does not depend on which box is passed first. */
  lemma CollideSymmetric(pos1: Vec, size1: Vec2u, pos2: Vec, size2: Vec2u)
    ensures IsCollide(pos1, size1, pos2, size2) == IsCollide(pos2, size2, pos1, size1)
  {
    CollideIffIntervalsMeet(pos1, size1, pos2, size2);
    CollideIffIntervalsMeet(pos2, size2, pos1, size1);
  }

  /** Boxes at the same position always collide, whatever their sizes. */
  lemma CollideSamePosition(pos: Vec, size1: Vec2u, size2: Vec2u)
    ensures IsCollide(pos, size1, pos, size2)
  {
  }

  /** Growing either box never turns a collision into a miss. */
  lemma CollideMonotone(pos1: Vec, size1: Vec2u, big1: Vec2u, pos2: Vec, size2: Vec2u, big2: Vec2u)
    requires size1.x <= big1.x && size1.y <= big1.y
    requires size2.x <= big2.x && size2.y <= big2.y
    requires IsCollide(pos1, size1, pos2, size2)
    ensures IsCollide(pos1, big1, pos2, big2)
  {
    CollideIffIntervalsMeet(pos1, size1, pos2, size2);
    CollideIffIntervalsMeet(pos1, big1, pos2, big2);
  }
}
