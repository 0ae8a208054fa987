/** The field as a value: what the collision checks of `Player::walk`,
    `Player::reborn` and `BulletList::update` look at, and the outcome of
    one tick of a bullet list, as functions of that value. The classes in
    module Game are proved to do what these functions say. */
module Arena {
  import opened Options
  import opened Geometry
  import opened Entities

  /** A soldier as the collision checks see it. `Id` is the soldier's
      identity (the object itself in module Game), used only to skip the
      soldier that is moving and the owner of a bullet. */
  datatype Body<Id> = Body(id: Id, pos: Vec, size: Vec2u)

  predicate SandbagHit(pos: Vec, size: Vec2u, sandbags: seq<Sandbag>, i: int)
    requires 0 <= i < |sandbags|
  {
    IsCollide(pos, size, sandbags[i].pos, sandbags[i].Size())
  }

  /** Invisible barrels are skipped by every check. */
  predicate BarrelHit(pos: Vec, size: Vec2u, barrels: seq<Barrel>, i: int)
    requires 0 <= i < |barrels|
  {
    barrels[i].visible && IsCollide(pos, size, barrels[i].sprite.pos, barrels[i].sprite.Size())
  }

  /** The soldier identified by `self` is skipped. */
  predicate BodyHit<Id(==)>(pos: Vec, size: Vec2u, bodies: seq<Body<Id>>, self: Id, i: int)
    requires 0 <= i < |bodies|
  {
    bodies[i].id != self && IsCollide(pos, size, bodies[i].pos, bodies[i].size)
  }

  predicate HitsSandbag(pos: Vec, size: Vec2u, sandbags: seq<Sandbag>) {
    exists i :: 0 <= i < |sandbags| && SandbagHit(pos, size, sandbags, i)
  }

  predicate HitsBarrel(pos: Vec, size: Vec2u, barrels: seq<Barrel>) {
    exists i :: 0 <= i < |barrels| && BarrelHit(pos, size, barrels, i)
  }

  predicate HitsBody<Id(==)>(pos: Vec, size: Vec2u, bodies: seq<Body<Id>>, self: Id) {
    exists i :: 0 <= i < |bodies| && BodyHit(pos, size, bodies, self, i)
  }

  /** A box at `pos` of size `size` meets a visible barrel, a sandbag or a
      soldier other than `self`. */
  predicate Obstructed<Id(==)>(pos: Vec, size: Vec2u, barrels: seq<Barrel>, sandbags: seq<Sandbag>,
                               bodies: seq<Body<Id>>, self: Id)
  {
    HitsBarrel(pos, size, barrels) || HitsSandbag(pos, size, sandbags) || HitsBody(pos, size, bodies, self)
  }

  /** The least index whose flag is set. */
  function FirstTrue(flags: seq<bool>): (r: Option<nat>)
    ensures r.Some? <==> exists i :: 0 <= i < |flags| && flags[i]
    ensures r.Some? ==> r.value < |flags| && flags[r.value] && forall j :: 0 <= j < r.value ==> !flags[j]
  {
    if flags == [] then None
    else if flags[0] then Some(0)
    else match FirstTrue(flags[1..])
      case None => None
      case Some(k) => Some(k + 1)
  }

  function FirstBarrel(pos: Vec, size: Vec2u, barrels: seq<Barrel>): (r: Option<nat>)
    ensures r.Some? <==> HitsBarrel(pos, size, barrels)
    ensures r.Some? ==> r.value < |barrels| && BarrelHit(pos, size, barrels, r.value)
                        && forall j :: 0 <= j < r.value ==> !BarrelHit(pos, size, barrels, j)
  {
    var flags := seq(|barrels|, i requires 0 <= i < |barrels| => BarrelHit(pos, size, barrels, i));
    var r := FirstTrue(flags);
    assert forall i :: 0 <= i < |barrels| ==> flags[i] == BarrelHit(pos, size, barrels, i);
    r
  }

  function FirstBody<Id(==)>(pos: Vec, size: Vec2u, bodies: seq<Body<Id>>, self: Id): (r: Option<nat>)
    ensures r.Some? <==> HitsBody(pos, size, bodies, self)
    ensures r.Some? ==> r.value < |bodies| && BodyHit(pos, size, bodies, self, r.value)
                        && forall j :: 0 <= j < r.value ==> !BodyHit(pos, size, bodies, self, j)
  {
    var flags := seq(|bodies|, i requires 0 <= i < |bodies| => BodyHit(pos, size, bodies, self, i));
    var r := FirstTrue(flags);
    assert forall i :: 0 <= i < |bodies| ==> flags[i] == BodyHit(pos, size, bodies, self, i);
    r
  }

  /** Two results of `rand()`, one per axis. */
  datatype Draw = Draw(rx: nat, ry: nat)

  /** `Game::getRandCoord`, and the position drawn in `Player::reborn`:
      each coordinate is a random number modulo the unsigned difference
      between the window extent and the entity's extent. A zero modulus is
      undefined behaviour in the source and gives None here. */
  function RandCoord(d: Draw, size: Vec2u, W: u32, H: u32): (r: Option<Vec>)
    ensures r.Some? <==> WrapSub(W, size.x) > 0 && WrapSub(H, size.y) > 0
    ensures r.Some? ==> 0 <= r.value.x < WrapSub(W, size.x) && 0 <= r.value.y < WrapSub(H, size.y)
  {
    var lx, ly := WrapSub(W, size.x), WrapSub(H, size.y);
    if lx == 0 || ly == 0 then None else Some(Vec(d.rx % lx, d.ry % ly))
  }

  /** When the entity is smaller than the window, every draw lands it
      wholly inside the window. */
  lemma RandCoordInsideWindow(d: Draw, size: Vec2u, W: u32, H: u32)
    requires size.x < W && size.y < H
    ensures RandCoord(d, size, W, H).Some?
    ensures var p := RandCoord(d, size, W, H).value;
      0 <= p.x && p.x + size.x < W && 0 <= p.y && p.y + size.y < H
  {
  }

  /** `rest` is what is left of `rng` after some draws were taken. */
  predicate SuffixOf(rest: seq<Draw>, rng: seq<Draw>) {
    |rest| <= |rng| && rest == rng[|rng| - |rest|..]
  }

  /** A draw that gives `Player::reborn` no free spot: the modulus is
      zero, or the position drawn is obstructed. */
  predicate Rejected<Id(==)>(d: Draw, size: Vec2u, barrels: seq<Barrel>, sandbags: seq<Sandbag>,
                             bodies: seq<Body<Id>>, self: Id, W: u32, H: u32)
  {
    match RandCoord(d, size, W, H)
    case None => true
    case Some(p) => Obstructed(p, size, barrels, sandbags, bodies, self)
  }

  /** `Player::reborn`: draw positions until one meets no visible barrel,
      no sandbag and no other soldier; the result also gives the draws not
      used. The size is the soldier's own, unpadded. Running out of draws
      (the source would keep drawing) or a zero modulus gives None. */
  function RebornDraw<Id(==)>(size: Vec2u, rng: seq<Draw>, barrels: seq<Barrel>, sandbags: seq<Sandbag>,
                              bodies: seq<Body<Id>>, self: Id, W: u32, H: u32): (r: (Option<Vec>, seq<Draw>))
    ensures SuffixOf(r.1, rng)
    ensures r.0.Some? ==> && 0 <= r.0.value.x < WrapSub(W, size.x) && 0 <= r.0.value.y < WrapSub(H, size.y)
                          && !Obstructed(r.0.value, size, barrels, sandbags, bodies, self)
    ensures r.0.Some? ==> |r.1| < |rng| && RandCoord(rng[|rng| - |r.1| - 1], size, W, H) == r.0
    decreases |rng|
  {
    if WrapSub(W, size.x) == 0 || WrapSub(H, size.y) == 0 then (None, rng)
    else if rng == [] then (None, [])
    else
      var p := RandCoord(rng[0], size, W, H).value;
      if Obstructed(p, size, barrels, sandbags, bodies, self) then
        RebornDraw(size, rng[1..], barrels, sandbags, bodies, self, W, H)
      else (Some(p), rng[1..])
  }

  /** The search is complete: the spot found comes from the first draw
      that is not rejected, and None means that every draw is rejected. */
  lemma {:induction false} RebornDrawComplete<Id>(size: Vec2u, rng: seq<Draw>, barrels: seq<Barrel>,
                                                  sandbags: seq<Sandbag>, bodies: seq<Body<Id>>, self: Id,
                                                  W: u32, H: u32)
    ensures var r := RebornDraw(size, rng, barrels, sandbags, bodies, self, W, H);
      && (r.0.None? <==> forall j :: 0 <= j < |rng| ==> Rejected(rng[j], size, barrels, sandbags, bodies, self, W, H))
      && (r.0.Some? ==> forall j :: 0 <= j < |rng| - |r.1| - 1 ==> Rejected(rng[j], size, barrels, sandbags, bodies, self, W, H))
    decreases |rng|
  {
    var r := RebornDraw(size, rng, barrels, sandbags, bodies, self, W, H);
    if WrapSub(W, size.x) == 0 || WrapSub(H, size.y) == 0 {
      forall j | 0 <= j < |rng|
        ensures Rejected(rng[j], size, barrels, sandbags, bodies, self, W, H)
      {
      }
    } else if rng != [] {
      var p := RandCoord(rng[0], size, W, H).value;
      if Obstructed(p, size, barrels, sandbags, bodies, self) {
        RebornDrawComplete(size, rng[1..], barrels, sandbags, bodies, self, W, H);
        assert forall j :: 1 <= j < |rng| ==> rng[j] == rng[1..][j - 1];
      } else {
        assert !Rejected(rng[0], size, barrels, sandbags, bodies, self, W, H);
      }
    }
  }

  /** The window test of `Player::walk`: up to half the soldier may stick
      out at the top and left; the right and bottom edges use the unsigned
      difference between window and soldier extents. */
  predicate WalkBounds(pos: Vec, size: Vec2u, W: u32, H: u32) {
    && 2 * pos.x >= -(size.x as int) && 2 * pos.y >= -(size.y as int)
    && pos.x < WrapSub(W, size.x) && pos.y < WrapSub(H, size.y)
  }

  /** For a soldier no larger than the window the test reads: at most half
      of it sticks out at the top and at the left, and its right and bottom
      edges are inside the window. */
  lemma WalkBoundsInWindow(pos: Vec, size: Vec2u, W: u32, H: u32)
    requires size.x <= W && size.y <= H
    ensures WalkBounds(pos, size, W, H)
        <==> -2 * pos.x <= size.x && -2 * pos.y <= size.y && pos.x + size.x < W && pos.y + size.y < H
  {
  }

  /** Where `Player::walk` leaves a soldier of (new) size `size` at `pos`
      asked to move by `d`: the target if it is free and inside the
      window, otherwise where it stands. So a soldier either stays or moves
      by exactly the requested displacement onto a free spot inside the
      window. */
  function WalkTarget<Id(==)>(pos: Vec, d: Vec, size: Vec2u, barrels: seq<Barrel>, sandbags: seq<Sandbag>,
                              bodies: seq<Body<Id>>, self: Id, W: u32, H: u32): (r: Vec)
    ensures r == pos.Plus(d) <== !Obstructed(pos.Plus(d), size, barrels, sandbags, bodies, self) && WalkBounds(pos.Plus(d), size, W, H)
    ensures r != pos ==> r == pos.Plus(d) && !Obstructed(r, size, barrels, sandbags, bodies, self) && WalkBounds(r, size, W, H)
    ensures Obstructed(pos.Plus(d), size, barrels, sandbags, bodies, self) ==> r == pos
  {
    var target := pos.Plus(d);
    if !Obstructed(target, size, barrels, sandbags, bodies, self) && WalkBounds(target, size, W, H)
    then target else pos
  }

  /** The out-of-window test of `BulletList::update`: it holds exactly
      when the bullet's closed box does not touch the window's. */
  predicate OutOfWindow(b: Bullet, W: u32, H: u32): (r: bool)
    ensures r <==> !IsCollide(b.sprite.pos, b.sprite.Size(), Zero, Vec2u(W, H))
  {
    var p, size := b.sprite.pos, b.sprite.Size();
    p.x < -(size.x as int) || p.y < -(size.y as int) || p.x > W || p.y > H
  }

  /** What happens to one bullet in one tick. */
  datatype Outcome = HitSandbag | HitBarrel(k: nat) | HitPlayer(k: nat) | OutOfBounds | Advance

  /** The checks of `BulletList::update` for one bullet, on its position
      before it moves, in their fixed order: sandbags, visible barrels,
      soldiers other than the owner, the window. */
  function Resolve<Id(==)>(b: Bullet, sandbags: seq<Sandbag>, barrels: seq<Barrel>, bodies: seq<Body<Id>>,
                           owner: Id, W: u32, H: u32): (o: Outcome)
    ensures o.HitBarrel? ==> o.k < |barrels|
    ensures o.HitPlayer? ==> o.k < |bodies|
  {
    var p, size := b.sprite.pos, b.sprite.Size();
    if HitsSandbag(p, size, sandbags) then HitSandbag
    else match FirstBarrel(p, size, barrels)
      case Some(k) => HitBarrel(k)
      case None =>
        match FirstBody(p, size, bodies, owner)
        case Some(k) => HitPlayer(k)
        case None => if OutOfWindow(b, W, H) then OutOfBounds else Advance
  }

  /** The outcome follows the fixed priority of the checks: a sandbag
      wins over everything, then the first visible barrel hit, then the
      first soldier hit other than the owner; a bullet touching nothing is
      dropped outside the window and moved inside it. */
  lemma ResolvePriority<Id>(b: Bullet, sandbags: seq<Sandbag>, barrels: seq<Barrel>, bodies: seq<Body<Id>>,
                            owner: Id, W: u32, H: u32)
    ensures var o, p, size := Resolve(b, sandbags, barrels, bodies, owner, W, H), b.sprite.pos, b.sprite.Size();
      && (o == HitSandbag <==> HitsSandbag(p, size, sandbags))
      && (o.HitBarrel? <==> !HitsSandbag(p, size, sandbags) && HitsBarrel(p, size, barrels))
      && (o.HitBarrel? ==> o.k < |barrels| && barrels[o.k].visible && BarrelHit(p, size, barrels, o.k)
                           && forall j :: 0 <= j < o.k ==> !BarrelHit(p, size, barrels, j))
      && (o.HitPlayer? <==> !HitsSandbag(p, size, sandbags) && !HitsBarrel(p, size, barrels)
                            && HitsBody(p, size, bodies, owner))
      && (o.HitPlayer? ==> o.k < |bodies| && bodies[o.k].id != owner && BodyHit(p, size, bodies, owner, o.k)
                           && forall j :: 0 <= j < o.k ==> !BodyHit(p, size, bodies, owner, j))
      && (o == OutOfBounds <==> !Obstructed(p, size, barrels, sandbags, bodies, owner) && OutOfWindow(b, W, H))
      && (o == Advance <==> !Obstructed(p, size, barrels, sandbags, bodies, owner) && !OutOfWindow(b, W, H))
  {
  }

  /** The part of the field one tick of a bullet list changes: barrel
      visibility, soldier positions, the owner's points gained so far and
      the random draws still available. */
  datatype Tick<Id> = Tick(barrels: seq<Barrel>, bodies: seq<Body<Id>>, points: nat, rng: seq<Draw>)

  /** The soldiers after the one at index `k` is reborn, and the draws
      left: it moves to the spot `RebornDraw` finds, or stays put when none
      is found. The draws left are what the search did not use. */
  function Respawn<Id(==)>(bodies: seq<Body<Id>>, k: nat, rng: seq<Draw>, barrels: seq<Barrel>,
                           sandbags: seq<Sandbag>, W: u32, H: u32): (r: (seq<Body<Id>>, seq<Draw>))
    requires k < |bodies|
    ensures SuffixOf(r.1, rng)
  {
    var victim := bodies[k];
    var (spot, rest) := RebornDraw(victim.size, rng, barrels, sandbags, bodies, victim.id, W, H);
    (if spot.Some? then bodies[k := victim.(pos := spot.value)] else bodies, rest)
  }

  /** The field after a bullet hits the soldier at index `k`: the
      soldier respawns and the owner gains a point. */
  function Scored<Id(==)>(t: Tick<Id>, k: nat, sandbags: seq<Sandbag>, W: u32, H: u32): Tick<Id>
    requires k < |t.bodies|
  {
    var (bodies, rest) := Respawn(t.bodies, k, t.rng, t.barrels, sandbags, W, H);
    t.(bodies := bodies, points := t.points + 1, rng := rest)
  }

  /** One bullet's effect on the field, and the bullets it leaves (none,
      or itself moved one step). A bullet that survives changed nothing,
      and the owner gains at most one point. */
  function StepBullet<Id(==)>(b: Bullet, t: Tick<Id>, sandbags: seq<Sandbag>, owner: Id, W: u32, H: u32)
    : (r: (Tick<Id>, seq<Bullet>))
    ensures r.1 == [] || (r.1 == [Move(b)] && r.0 == t)
    ensures r.0.points == t.points || r.0.points == t.points + 1
  {
    match Resolve(b, sandbags, t.barrels, t.bodies, owner, W, H)
    case HitSandbag => (t, [])
    case HitBarrel(k) => (t.(barrels := t.barrels[k := t.barrels[k].(visible := false)]), [])
    case HitPlayer(k) => (Scored(t, k, sandbags, W, H), [])
    case OutOfBounds => (t, [])
    case Advance => (t, [Move(b)])
  }

  /** `BulletList::update`: the bullets in list order, each seeing the
      field as the bullets before it left it. */
  function UpdateSpec<Id(==)>(bs: seq<Bullet>, t: Tick<Id>, sandbags: seq<Sandbag>, owner: Id, W: u32, H: u32)
    : (Tick<Id>, seq<Bullet>)
    decreases |bs|
  {
    if bs == [] then (t, [])
    else
      var (t1, out) := StepBullet(bs[0], t, sandbags, owner, W, H);
      var (t2, rest) := UpdateSpec(bs[1..], t1, sandbags, owner, W, H);
      (t2, out + rest)
  }

  /** One step of the fold: the first bullet, then the rest on the field
      it leaves. */
  lemma UpdateSpecCons<Id>(bs: seq<Bullet>, t: Tick<Id>, sandbags: seq<Sandbag>, owner: Id, W: u32, H: u32)
    requires bs != []
    ensures var (t1, out) := StepBullet(bs[0], t, sandbags, owner, W, H);
      var (t2, rest) := UpdateSpec(bs[1..], t1, sandbags, owner, W, H);
      UpdateSpec(bs, t, sandbags, owner, W, H) == (t2, out + rest)
  {
  }

  /** The loop invariant of `BulletList::update` carried past one
      bullet: `u` is the whole tick, `kept` the survivors so far and
      `todo` the bullets still to visit on field `t`. */
  lemma FoldStep<Id>(u: (Tick<Id>, seq<Bullet>), todo: seq<Bullet>, kept: seq<Bullet>, t: Tick<Id>,
                     sandbags: seq<Sandbag>, owner: Id, W: u32, H: u32)
    requires todo != []
    requires u == (UpdateSpec(todo, t, sandbags, owner, W, H).0, kept + UpdateSpec(todo, t, sandbags, owner, W, H).1)
    ensures var (t1, out) := StepBullet(todo[0], t, sandbags, owner, W, H);
      u == (UpdateSpec(todo[1..], t1, sandbags, owner, W, H).0, (kept + out) + UpdateSpec(todo[1..], t1, sandbags, owner, W, H).1)
  {
    UpdateSpecCons(todo, t, sandbags, owner, W, H);
    var (t1, out) := StepBullet(todo[0], t, sandbags, owner, W, H);
    var tail := UpdateSpec(todo[1..], t1, sandbags, owner, W, H).1;
    assert kept + (out + tail) == (kept + out) + tail;
  }

  /** `a` is `b` with some elements dropped, the rest in order. */
  predicate Subsequence<T(==)>(a: seq<T>, b: seq<T>)
    decreases |b|
  {
    if a == [] then true
    else if b == [] then false
    else (a[0] == b[0] && Subsequence(a[1..], b[1..])) || Subsequence(a, b[1..])
  }

  function MoveAll(bs: seq<Bullet>): (r: seq<Bullet>)
    ensures |r| == |bs| && forall i :: 0 <= i < |bs| ==> r[i] == Move(bs[i])
  {
    seq(|bs|, i requires 0 <= i < |bs| => Move(bs[i]))
  }

  /** What survives a tick is the surviving bullets, each moved one step,
      in their original order. */
  lemma {:induction false} SurvivorsInOrder<Id>(bs: seq<Bullet>, t: Tick<Id>, sandbags: seq<Sandbag>,
                                                    owner: Id, W: u32, H: u32)
    ensures Subsequence(UpdateSpec(bs, t, sandbags, owner, W, H).1, MoveAll(bs))
    decreases |bs|
  {
    if bs != [] {
      var (t1, out) := StepBullet(bs[0], t, sandbags, owner, W, H);
      var rest := UpdateSpec(bs[1..], t1, sandbags, owner, W, H).1;
      SurvivorsInOrder(bs[1..], t1, sandbags, owner, W, H);
      assert MoveAll(bs)[1..] == MoveAll(bs[1..]);
      if out == [] {
        assert UpdateSpec(bs, t, sandbags, owner, W, H).1 == rest;
        if rest != [] {
          assert Subsequence(rest, MoveAll(bs)[1..]);
        }
      } else {
        assert out == [Move(bs[0])];
        var kept := out + rest;
        assert kept[0] == MoveAll(bs)[0] && kept[1..] == rest;
      }
    }
  }

  /** How a tick may change the field: barrels keep their sprites and can
      only lose visibility, soldiers keep identity and size, points only
      grow and draws are only taken from the front. */
  ghost predicate FieldFrame<Id>(t: Tick<Id>, t': Tick<Id>) {
    && |t'.barrels| == |t.barrels|
    && (forall i :: 0 <= i < |t.barrels| ==> t'.barrels[i].sprite == t.barrels[i].sprite)
    && (forall i :: 0 <= i < |t.barrels| && t'.barrels[i].visible ==> t.barrels[i].visible)
    && |t'.bodies| == |t.bodies|
    && (forall i :: 0 <= i < |t.bodies| ==> t'.bodies[i].id == t.bodies[i].id && t'.bodies[i].size == t.bodies[i].size)
    && t.points <= t'.points
    && SuffixOf(t'.rng, t.rng)
  }

  lemma FieldFrameTransitive<Id>(t1: Tick<Id>, t2: Tick<Id>, t3: Tick<Id>)
    requires FieldFrame(t1, t2) && FieldFrame(t2, t3)
    ensures FieldFrame(t1, t3)
  {
    assert t3.rng == t1.rng[|t1.rng| - |t3.rng|..] by {
      assert t2.rng == t1.rng[|t1.rng| - |t2.rng|..];
      assert t3.rng == t2.rng[|t2.rng| - |t3.rng|..];
    }
  }

  /** One bullet changes the field within the frame, and either survives
      or scores (or neither), never both. */
  lemma StepFrame<Id>(b: Bullet, t: Tick<Id>, sandbags: seq<Sandbag>, owner: Id, W: u32, H: u32)
    ensures var (t', out) := StepBullet(b, t, sandbags, owner, W, H);
      FieldFrame(t, t') && |out| + (t'.points - t.points) <= 1
  {
  }

  /** A tick never restores a barrel, never moves one, keeps the soldiers'
      identities and sizes, gives the owner at most one point per bullet,
      keeps at most every bullet and only takes draws from the front. */
  lemma {:induction false} UpdateFrame<Id>(bs: seq<Bullet>, t: Tick<Id>, sandbags: seq<Sandbag>,
                                           owner: Id, W: u32, H: u32)
    ensures var (t', kept) := UpdateSpec(bs, t, sandbags, owner, W, H);
      FieldFrame(t, t') && |kept| + (t'.points - t.points) <= |bs|
    decreases |bs|
  {
    if bs != [] {
      var (t1, out) := StepBullet(bs[0], t, sandbags, owner, W, H);
      StepFrame(bs[0], t, sandbags, owner, W, H);
      UpdateFrame(bs[1..], t1, sandbags, owner, W, H);
      var t2 := UpdateSpec(bs[1..], t1, sandbags, owner, W, H).0;
      FieldFrameTransitive(t, t1, t2);
    }
  }

  /** A barrel that is invisible stays invisible for any number of ticks,
      so no bullet ever collides with it again. */
  lemma InvisibleStaysInvisible<Id>(bs: seq<Bullet>, t: Tick<Id>, sandbags: seq<Sandbag>,
                                        owner: Id, W: u32, H: u32, i: nat)
    requires i < |t.barrels| && !t.barrels[i].visible
    ensures var t' := UpdateSpec(bs, t, sandbags, owner, W, H).0;
      i < |t'.barrels| && !t'.barrels[i].visible
  {
    UpdateFrame(bs, t, sandbags, owner, W, H);
  }

  /** A bullet that hits a soldier gives exactly one point to its owner,
      leaves every other soldier where it was, and puts the one it hit on
      the spot `RebornDraw` finds: inside the window and meeting no visible
      barrel, sandbag or other soldier. It stays where it was exactly when
      no draw is accepted. */
  lemma HitSoldierEffect<Id>(b: Bullet, t: Tick<Id>, sandbags: seq<Sandbag>, owner: Id, W: u32, H: u32)
    requires Resolve(b, sandbags, t.barrels, t.bodies, owner, W, H).HitPlayer?
    ensures var k := Resolve(b, sandbags, t.barrels, t.bodies, owner, W, H).k;
      var (t', kept) := StepBullet(b, t, sandbags, owner, W, H);
      && kept == [] && t'.points == t.points + 1 && t'.barrels == t.barrels
      && k < |t.bodies| && t.bodies[k].id != owner && |t'.bodies| == |t.bodies|
      && (forall j :: 0 <= j < |t.bodies| && j != k ==> t'.bodies[j] == t.bodies[j])
      && t'.bodies[k].id == t.bodies[k].id && t'.bodies[k].size == t.bodies[k].size
      && var (spot, rest) := RebornDraw(t.bodies[k].size, t.rng, t.barrels, sandbags, t.bodies, t.bodies[k].id, W, H);
      && t'.rng == rest
      && (spot.None? ==> t'.bodies[k] == t.bodies[k])
      && (spot.None? <==> forall j :: 0 <= j < |t.rng| ==>
            Rejected(t.rng[j], t.bodies[k].size, t.barrels, sandbags, t.bodies, t.bodies[k].id, W, H))
      && (spot.Some? ==> && t'.bodies[k].pos == spot.value
                         && 0 <= spot.value.x < WrapSub(W, t.bodies[k].size.x)
                         && 0 <= spot.value.y < WrapSub(H, t.bodies[k].size.y)
                         && !Obstructed(spot.value, t.bodies[k].size, t.barrels, sandbags, t.bodies, t.bodies[k].id))
  {
    ResolvePriority(b, sandbags, t.barrels, t.bodies, owner, W, H);
    var k := Resolve(b, sandbags, t.barrels, t.bodies, owner, W, H).k;
    RebornDrawComplete(t.bodies[k].size, t.rng, t.barrels, sandbags, t.bodies, t.bodies[k].id, W, H);
  }

  /** A bullet that hits a visible barrel makes exactly that barrel
      invisible and is gone; the other barrels, the soldiers, the points
      and the draws are unchanged. */
  lemma HitBarrelEffect<Id>(b: Bullet, t: Tick<Id>, sandbags: seq<Sandbag>, owner: Id, W: u32, H: u32)
    requires Resolve(b, sandbags, t.barrels, t.bodies, owner, W, H).HitBarrel?
    ensures var k := Resolve(b, sandbags, t.barrels, t.bodies, owner, W, H).k;
      var (t', kept) := StepBullet(b, t, sandbags, owner, W, H);
      && kept == [] && k < |t.barrels| && t.barrels[k].visible
      && |t'.barrels| == |t.barrels| && !t'.barrels[k].visible && t'.barrels[k].sprite == t.barrels[k].sprite
      && (forall j :: 0 <= j < |t.barrels| && j != k ==> t'.barrels[j] == t.barrels[j])
      && t'.bodies == t.bodies && t'.points == t.points && t'.rng == t.rng
  {
    ResolvePriority(b, sandbags, t.barrels, t.bodies, owner, W, H);
  }

  /** A bullet that touches a sandbag is gone and changes nothing else,
      whatever barrels or soldiers it also touches. */
  lemma HitSandbagEffect<Id>(b: Bullet, t: Tick<Id>, sandbags: seq<Sandbag>, owner: Id, W: u32, H: u32)
    requires HitsSandbag(b.sprite.pos, b.sprite.Size(), sandbags)
    ensures StepBullet(b, t, sandbags, owner, W, H) == (t, [])
  {
    ResolvePriority(b, sandbags, t.barrels, t.bodies, owner, W, H);
  }

  /** A bullet outside the window (and touching nothing) is gone after one
      tick; one inside it that touches nothing moves by its velocity. */
  lemma FreeBulletFate<Id>(b: Bullet, t: Tick<Id>, sandbags: seq<Sandbag>, owner: Id, W: u32, H: u32)
    requires !Obstructed(b.sprite.pos, b.sprite.Size(), t.barrels, sandbags, t.bodies, owner)
    ensures var (t', kept) := StepBullet(b, t, sandbags, owner, W, H);
      && t' == t
      && (OutOfWindow(b, W, H) ==> kept == [])
      && (!OutOfWindow(b, W, H) ==> kept == [b.(sprite := b.sprite.(pos := b.sprite.pos.Plus(b.velocity)))])
  {
    ResolvePriority(b, sandbags, t.barrels, t.bodies, owner, W, H);
  }
}
