/** The static and moving things of the field as values: the shared
    sprite record of `Object`, barrels with their visibility flag,
    sandbags, and bullets with their fixed velocity. */
module Entities {
  import opened Options
  import opened Geometry

  datatype Direction = Up | Down | Left | Right

  /** Unit step of a direction in screen coordinates (y grows downwards). */
  function Unit(d: Direction): Vec {
    match d
    case Up => Vec(0, -1)
    case Down => Vec(0, 1)
    case Left => Vec(-1, 0)
    case Right => Vec(1, 0)
  }

  function Scale(v: Vec, k: int): Vec { Vec(v.x * k, v.y * k) }

  /** What every `Object` holds for collision purposes: its position, the
      size of its texture and the shrink offset subtracted from it. */
  datatype Sprite = Sprite(pos: Vec, texture: Vec2u, offset: Vec2u) {
    /** `Object::getSize`: texture size minus shrink offset, as unsigned
        32-bit arithmetic. */
    function Size(): (r: Vec2u)
      ensures offset.x <= texture.x ==> r.x == texture.x - offset.x
      ensures offset.y <= texture.y ==> r.y == texture.y - offset.y
    {
      SubU(texture, offset)
    }
  }

  /** Barrels start visible and turn invisible when a bullet hits them. */
  datatype Barrel = Barrel(sprite: Sprite, visible: bool)

  type Sandbag = Sprite

  /** Shrink offsets given to the static entities and the soldiers when
      they are created. */
  const BarrelOffset: Vec2u := Vec2u(5, 38)
  const SandbagOffset: Vec2u := Vec2u(5, 28)
  const SoldierOffset: Vec2u := Vec2u(50, 50)

  function NewBarrel(pos: Vec, texture: Vec2u): (b: Barrel)
    ensures b.visible && b.sprite.pos == pos
  {
    Barrel(Sprite(pos, texture, BarrelOffset), true)
  }

  datatype Bullet = Bullet(sprite: Sprite, velocity: Vec)

  /** Displacement from the firing soldier's position to the muzzle. */
  function Muzzle(d: Direction): Vec {
    match d
    case Up => Vec(30, -25)
    case Down => Vec(0, 60)
    case Left => Vec(-40, 10)
    case Right => Vec(55, 45)
  }

  /** Offset the horizontal bullets use to correct their rotated hitbox:
      the source stores -20 into an unsigned field, i.e. 2^32 - 20. */
  function BulletOffset(d: Direction): Vec2u {
    if d == Left || d == Right then Vec2u(U32 - 20, 20) else Vec2u(0, 0)
  }

  /** `Bullet::init`: velocity, spawn position and hitbox offset for a
      bullet fired in direction `d` by a soldier standing at `pos`. A new
      bullet moves exactly `speed` along its direction's axis, with the
      direction's sign, and nothing along the other axis; it starts at the
      shooter's position shifted by the muzzle offset. */
  function NewBullet(pos: Vec, d: Direction, speed: int, texture: Vec2u): (b: Bullet)
    ensures b.sprite.texture == texture
    ensures d == Up ==> b.velocity == Vec(0, -speed) && b.sprite.pos == Vec(pos.x + 30, pos.y - 25)
    ensures d == Down ==> b.velocity == Vec(0, speed) && b.sprite.pos == Vec(pos.x, pos.y + 60)
    ensures d == Left ==> b.velocity == Vec(-speed, 0) && b.sprite.pos == Vec(pos.x - 40, pos.y + 10)
    ensures d == Right ==> b.velocity == Vec(speed, 0) && b.sprite.pos == Vec(pos.x + 55, pos.y + 45)
  {
    Bullet(Sprite(pos.Plus(Muzzle(d)), texture, BulletOffset(d)), Scale(Unit(d), speed))
  }

  /** `Bullet::move`: one step along the velocity; the velocity and the
      hitbox stay, and the position advances by the velocity on each axis. */
  function Move(b: Bullet): (r: Bullet)
    ensures r.velocity == b.velocity && r.sprite.texture == b.sprite.texture
    ensures r.sprite.offset == b.sprite.offset && r.sprite.Size() == b.sprite.Size()
    ensures r.sprite.pos.x - b.sprite.pos.x == b.velocity.x
    ensures r.sprite.pos.y - b.sprite.pos.y == b.velocity.y
  {
    b.(sprite := b.sprite.(pos := b.sprite.pos.Plus(b.velocity)))
  }

  /** The state-to-direction switch of `BulletList::add`; states 1 and 5
      (and anything outside 0..13) fire nothing. */
  function FireDirection(state: int): (r: Option<Direction>)
    ensures r == Some(Up) <==> state == 0 || state == 7 || state == 8
    ensures r == Some(Right) <==> state == 2 || state == 9 || state == 10
    ensures r == Some(Down) <==> state == 3 || state == 4 || state == 11
    ensures r == Some(Left) <==> state == 6 || state == 12 || state == 13
    ensures r == None <==> !(0 <= state <= 13) || state == 1 || state == 5
  {
    if state == 0 || state == 7 || state == 8 then Some(Up)
    else if state == 2 || state == 9 || state == 10 then Some(Right)
    else if state == 4 || state == 3 || state == 11 then Some(Down)
    else if state == 6 || state == 12 || state == 13 then Some(Left)
    else None
  }

  /** The hitbox of a new bullet: the texture itself when it flies
      vertically; 20 wider and 20 lower when it flies horizontally, as long
      as the unsigned arithmetic does not wrap. */
  lemma NewBulletHitbox(pos: Vec, d: Direction, speed: int, texture: Vec2u)
    requires texture.x + 20 < U32 && texture.y >= 20
    ensures var size := NewBullet(pos, d, speed, texture).sprite.Size();
      && ((d == Up || d == Down) ==> size == texture)
      && ((d == Left || d == Right) ==> size == Vec2u(texture.x + 20, texture.y - 20))
  {
  }

  /** A bullet moved `n` times (with no collision in between). */
  function MoveN(b: Bullet, n: nat): Bullet {
    if n == 0 then b else Move(MoveN(b, n - 1))
  }

  /** After `n` steps a bullet has travelled `n` velocities, keeping its
      velocity and hitbox; for a bullet fired in direction `d` at speed
      `speed` that is `n * speed` along `d`. */
  lemma {:induction false} MoveNPosition(b: Bullet, n: nat)
    ensures MoveN(b, n).velocity == b.velocity
    ensures MoveN(b, n).sprite.texture == b.sprite.texture && MoveN(b, n).sprite.offset == b.sprite.offset
    ensures MoveN(b, n).sprite.pos == b.sprite.pos.Plus(Scale(b.velocity, n))
  {
    if n > 0 {
      MoveNPosition(b, n - 1);
      assert b.velocity.x * n == b.velocity.x * (n - 1) + b.velocity.x;
      assert b.velocity.y * n == b.velocity.y * (n - 1) + b.velocity.y;
    }
  }

  lemma FiredBulletAfter(pos: Vec, d: Direction, speed: nat, texture: Vec2u, n: nat)
    ensures MoveN(NewBullet(pos, d, speed, texture), n).sprite.pos
         == pos.Plus(Muzzle(d)).Plus(Scale(Unit(d), speed * n))
  {
    var b := NewBullet(pos, d, speed, texture);
    MoveNPosition(b, n);
    assert Scale(b.velocity, n) == Scale(Unit(d), speed * n);
  }

  /** What `BulletList::add` appends for a soldier in `state` at `pos`:
      one new bullet in the state's firing direction, or nothing for the
      states that have none. */
  function Fired(pos: Vec, state: int, speed: int, texture: Vec2u): (r: seq<Bullet>)
    ensures |r| <= 1 && (r == [] <==> FireDirection(state).None?)
    ensures forall b :: b in r ==>
      b.velocity == Scale(Unit(FireDirection(state).value), speed) && b.sprite.pos == pos.Plus(Muzzle(FireDirection(state).value))
  {
    match FireDirection(state)
    case None => []
    case Some(d) => [NewBullet(pos, d, speed, texture)]
  }

  /** Firing appends at most one bullet, exactly when the state has a
      firing direction, and that bullet flies that way at `speed`. */
  lemma FiredShape(bullets: seq<Bullet>, pos: Vec, state: int, speed: int, texture: Vec2u)
    ensures var r := bullets + Fired(pos, state, speed, texture);
      && r[..|bullets|] == bullets
      && (FireDirection(state).None? ==> r == bullets)
      && (FireDirection(state).Some? ==>
            && |r| == |bullets| + 1
            && r[|bullets|] == NewBullet(pos, FireDirection(state).value, speed, texture)
            && r[|bullets|].velocity == Scale(Unit(FireDirection(state).value), speed))
  {
  }

  /** The list after a node is unlinked (`BulletList::remove` with
      `Bullet::~Bullet`); an index past the end stands for the null node,
      which leaves the list alone. */
  function Unlink(bullets: seq<Bullet>, i: nat): (r: seq<Bullet>)
    ensures i >= |bullets| ==> r == bullets
    ensures i < |bullets| ==> && |r| == |bullets| - 1
                              && (forall j :: 0 <= j < i ==> r[j] == bullets[j])
                              && (forall j :: i <= j < |r| ==> r[j] == bullets[j + 1])
  {
    if i < |bullets| then bullets[..i] + bullets[i + 1..] else bullets
  }

  /** Unlinking, or replacing, the first node after a prefix. */
  lemma UnlinkAfter(prefix: seq<Bullet>, rest: seq<Bullet>, b: Bullet)
    requires rest != []
    ensures Unlink(prefix + rest, |prefix|) == prefix + rest[1..]
    ensures (prefix + rest)[|prefix| := b] == (prefix + [b]) + rest[1..]
  {
    assert (prefix + rest)[|prefix| + 1..] == rest[1..];
  }

  /** Unlinking drops exactly that node: none is lost or duplicated, and
      removing the head makes its successor the head. */
  lemma UnlinkShape(bullets: seq<Bullet>, i: nat)
    requires i < |bullets|
    ensures var r := Unlink(bullets, i);
      && multiset(r) + multiset{bullets[i]} == multiset(bullets)
      && (i == 0 && |bullets| > 1 ==> r[0] == bullets[1])
  {
    assert bullets == bullets[..i] + [bullets[i]] + bullets[i + 1..];
  }
}
