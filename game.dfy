/** The objects of the game that change in place: soldiers (`Player`)
    and their bullet lists (`BulletList`). Barrels are an array of values
    whose visibility `BulletList::update` switches off; sandbags are only
    read. The methods with loops (`walk`, `reborn`, the collision loops,
    `update` and its passes) are proved against the value-level functions
    of modules Locomotion and Arena; `Add`, `Remove` and `Fire` against the
    list functions `Fired` and `Unlink` of module Entities; and
    `IncrementScore` and the constructors state the new field values
    outright. */
module Game {
  import opened Options
  import opened Geometry
  import opened Entities
  import opened Locomotion
  import opened Arena

  class Player {
    var pos: Vec
    /** Sizes of the textures soldier0.png .. soldier13.png, one per state. */
    const textures: seq<Vec2u>
    /** Shrink offset subtracted from every texture size. */
    const offset: Vec2u
    var state: int
    var s: int
    var oldDir: Option<Direction>
    var score: nat

    ghost predicate Valid()
      reads this`state, this`s, this`oldDir
    {
      |textures| == NumStates && GaitValid(Gait(state, s, oldDir))
    }

    function Walking(): Gait
      reads this`state, this`s, this`oldDir
    {
      Gait(state, s, oldDir)
    }

    /** `Player::getSize`: the current state's texture, shrunk by the
        offset in unsigned 32-bit arithmetic. */
    function Size(): (r: Vec2u)
      reads this`state
      requires 0 <= state < |textures|
      ensures offset.x <= textures[state].x ==> r.x == textures[state].x - offset.x
      ensures offset.y <= textures[state].y ==> r.y == textures[state].y - offset.y
    {
      SubU(textures[state], offset)
    }

    function Hitbox(): Body<Player>
      reads this`pos, this`state
      requires 0 <= state < |textures|
    {
      Body(this, pos, Size())
    }

    /** `Player::init`: standing up, parity 0, no facing guess, no points. */
    constructor (textures: seq<Vec2u>, pos: Vec, offset: Vec2u)
      requires |textures| == NumStates
      ensures Valid()
      ensures this.textures == textures && this.pos == pos && this.offset == offset
      ensures Walking() == InitialGait && score == 0
    {
      this.textures := textures;
      this.offset := offset;
      this.pos := pos;
      state, s, oldDir := 0, 0, None;
      score := 0;
    }

    method IncrementScore()
      modifies this`score
      ensures score == old(score) + 1
    {
      score := score + 1;
    }

    /** `Player::fire`: append to `list` the bullet the current state fires. */
    method Fire(list: BulletList, speed: int)
      modifies list`bullets
      ensures list.bullets == old(list.bullets) + Fired(pos, state, speed, list.texture)
    {
      list.Add(pos, state, speed);
    }

    /** `Player::walk`: take the transition for `dir`, then move by its
        displacement only if the box at the target, sized for the new
        state, meets no visible barrel, sandbag or other soldier and lies
        inside the window. The new state is kept either way. */
    method Walk(speed: int, dir: Direction, players: seq<Player>, barrels: array<Barrel>,
                sandbags: seq<Sandbag>, W: u32, H: u32)
      requires Valid() && AllValid(players)
      modifies this`state, this`s, this`oldDir, this`pos
      ensures Valid() && AllValid(players)
      ensures Walking() == Transition(old(Walking()), dir, speed).0
      ensures pos == WalkTarget(old(pos), Transition(old(Walking()), dir, speed).1, Size(),
                                barrels[..], sandbags, old(Bodies(players)), this, W, H)
    {
      var (g, d) := Transition(Walking(), dir, speed);
      TransitionPreservesValid(Walking(), dir, speed);
      var newPos := pos.Plus(d);
      var curSize := SubU(textures[g.state], offset);
      var blocked := CheckObstructed(newPos, curSize, this, players, barrels, sandbags);
      state, s, oldDir := g.state, g.s, g.oldDir;
      if !blocked && WalkBounds(newPos, curSize, W, H) {
        pos := newPos;
      }
    }

    /** `Player::reborn`: draw positions from `rng` until one is free of
        visible barrels, sandbags and the other soldiers (this soldier's own
        box, unpadded), and stand there; `rest` is what is left of `rng`. */
    method Reborn(rng: seq<Draw>, players: seq<Player>, barrels: array<Barrel>, sandbags: seq<Sandbag>,
                  W: u32, H: u32) returns (rest: seq<Draw>)
      requires Valid() && AllValid(players)
      modifies this`pos
      ensures var (spot, r) := RebornDraw(Size(), rng, barrels[..], sandbags, old(Bodies(players)), this, W, H);
        rest == r && pos == (if spot.Some? then spot.value else old(pos))
    {
      var spot;
      spot, rest := FreeSpot(Size(), rng, this, players, barrels, sandbags, W, H);
      if spot.Some? {
        pos := spot.value;
      }
    }
  }

  /** The drawing loop of `Player::reborn` for a soldier `self` of size
      `size`: the first drawn position free of visible barrels, sandbags
      and the other soldiers, and the draws left. */
  method FreeSpot(size: Vec2u, rng: seq<Draw>, self: Player, players: seq<Player>, barrels: array<Barrel>,
                  sandbags: seq<Sandbag>, W: u32, H: u32) returns (spot: Option<Vec>, rest: seq<Draw>)
    requires Sized(players)
    ensures (spot, rest) == RebornDraw(size, rng, barrels[..], sandbags, Bodies(players), self, W, H)
  {
    var lx, ly := WrapSub(W, size.x), WrapSub(H, size.y);
    if lx == 0 || ly == 0 {
      return None, rng;
    }
    ghost var spec := RebornDraw(size, rng, barrels[..], sandbags, Bodies(players), self, W, H);
    var k := 0;
    while k < |rng|
      invariant 0 <= k <= |rng|
      invariant spec == RebornDraw(size, rng[k..], barrels[..], sandbags, Bodies(players), self, W, H)
    {
      var newPos := Vec(rng[k].rx % lx, rng[k].ry % ly);
      var hit := CheckObstructed(newPos, size, self, players, barrels, sandbags);
      assert rng[k..][1..] == rng[k + 1..];
      if !hit {
        return Some(newPos), rng[k + 1..];
      }
      k := k + 1;
    }
    return None, [];
  }

  ghost predicate AllValid(players: seq<Player>)
    reads players`state, players`s, players`oldDir
  {
    forall i :: 0 <= i < |players| ==> players[i].Valid()
  }

  /** The soldiers are distinct objects (an array of `Player`). */
  predicate Distinct(players: seq<Player>) {
    forall i, j :: 0 <= i < j < |players| ==> players[i] != players[j]
  }

  /** Every soldier's state selects one of its textures. */
  predicate Sized(players: seq<Player>)
    reads players`state
  {
    forall i :: 0 <= i < |players| ==> 0 <= players[i].state < |players[i].textures|
  }

  /** The soldiers as the collision checks see them. */
  function Bodies(players: seq<Player>): (r: seq<Body<Player>>)
    reads players`pos, players`state
    requires Sized(players)
    ensures |r| == |players| && forall i :: 0 <= i < |players| ==> r[i] == players[i].Hitbox()
  {
    if players == [] then [] else [players[0].Hitbox()] + Bodies(players[1..])
  }

  /** The loop over the sandbags: does the box meet any of them. */
  method FindSandbag(pos: Vec, size: Vec2u, sandbags: seq<Sandbag>) returns (hit: bool)
    ensures hit == HitsSandbag(pos, size, sandbags)
  {
    var i := 0;
    while i < |sandbags|
      invariant 0 <= i <= |sandbags|
      invariant forall j :: 0 <= j < i ==> !SandbagHit(pos, size, sandbags, j)
    {
      if IsCollide(pos, size, sandbags[i].pos, sandbags[i].Size()) {
        assert SandbagHit(pos, size, sandbags, i);
        return true;
      }
      i := i + 1;
    }
    return false;
  }

  /** The loop over the barrels: the first visible one the box meets. */
  method FindBarrel(pos: Vec, size: Vec2u, barrels: array<Barrel>) returns (r: Option<nat>)
    ensures r == FirstBarrel(pos, size, barrels[..])
  {
    var i := 0;
    while i < barrels.Length
      invariant 0 <= i <= barrels.Length
      invariant forall j :: 0 <= j < i ==> !BarrelHit(pos, size, barrels[..], j)
    {
      if barrels[i].visible {
        if IsCollide(pos, size, barrels[i].sprite.pos, barrels[i].sprite.Size()) {
          assert BarrelHit(pos, size, barrels[..], i);
          return Some(i);
        }
      }
      i := i + 1;
    }
    return None;
  }

  /** The loop over the soldiers: the first one other than `self` the box
      meets. */
  method FindBody(pos: Vec, size: Vec2u, self: Player, players: seq<Player>) returns (r: Option<nat>)
    requires Sized(players)
    ensures r == FirstBody(pos, size, Bodies(players), self)
  {
    ghost var bodies := Bodies(players);
    var i := 0;
    while i < |players|
      invariant 0 <= i <= |players|
      invariant forall j :: 0 <= j < i ==> !BodyHit(pos, size, bodies, self, j)
    {
      if players[i] != self {
        if IsCollide(pos, size, players[i].pos, players[i].Size()) {
          assert BodyHit(pos, size, bodies, self, i);
          return Some(i);
        }
      }
      i := i + 1;
    }
    return None;
  }

  /** The collision checks of `Player::walk` and `Player::reborn`:
      visible barrels, then sandbags, then every soldier but `self`. */
  method CheckObstructed(pos: Vec, size: Vec2u, self: Player, players: seq<Player>, barrels: array<Barrel>,
                         sandbags: seq<Sandbag>) returns (hit: bool)
    requires Sized(players)
    ensures hit == Obstructed(pos, size, barrels[..], sandbags, Bodies(players), self)
  {
    var barrel := FindBarrel(pos, size, barrels);
    if barrel.Some? {
      return true;
    }
    hit := FindSandbag(pos, size, sandbags);
    if hit {
      return true;
    }
    var body := FindBody(pos, size, self, players);
    return body.Some?;
  }

  /** The checks `BulletList::update` makes for one bullet, in order:
      any sandbag, the first visible barrel, the first soldier other than
      the owner, the window edges. */
  method Classify(b: Bullet, owner: Player, players: seq<Player>, barrels: array<Barrel>,
                  sandbags: seq<Sandbag>, W: u32, H: u32) returns (o: Outcome)
    requires Sized(players)
    ensures o == Resolve(b, sandbags, barrels[..], Bodies(players), owner, W, H)
  {
    var p, size := b.sprite.pos, b.sprite.Size();
    var bag := FindSandbag(p, size, sandbags);
    if bag {
      return HitSandbag;
    }
    var barrel := FindBarrel(p, size, barrels);
    if barrel.Some? {
      return HitBarrel(barrel.value);
    }
    var body := FindBody(p, size, owner, players);
    if body.Some? {
      return HitPlayer(body.value);
    }
    if p.x < -(size.x as int) || p.y < -(size.y as int) || p.x > W || p.y > H {
      return OutOfBounds;
    }
    return Advance;
  }

  /** The reborn call of the soldier-hit branch of `BulletList::update`:
      the soldier at index `k` of `players` is placed by `Player::reborn`;
      every other soldier stays as it was. */
  method RebornAt(players: seq<Player>, k: nat, victim: Player, barrels: array<Barrel>, sandbags: seq<Sandbag>,
                  W: u32, H: u32, rng: seq<Draw>) returns (rest: seq<Draw>)
    requires AllValid(players) && Distinct(players) && k < |players| && players[k] == victim
    modifies victim`pos
    ensures AllValid(players)
    ensures (Bodies(players), rest) == Respawn(old(Bodies(players)), k, rng, barrels[..], sandbags, W, H)
  {
    ghost var before := Bodies(players);
    ghost var size := victim.Size();
    assert before[k] == Body(victim, victim.pos, size);
    rest := victim.Reborn(rng, players, barrels, sandbags, W, H);
    assert victim.Size() == size;
    forall q | 0 <= q < |players|
      ensures Bodies(players)[q] == (if q == k then before[k].(pos := victim.pos) else before[q])
    {
      if q != k {
        assert players[q] != players[k];
      }
    }
    assert Bodies(players) == before[k := before[k].(pos := victim.pos)];
  }

  /** The bullets `owner` has fired, in firing order (the source's doubly
      linked list from head to tail). */
  class BulletList {
    var bullets: seq<Bullet>
    const owner: Player
    /** Size of bullet.png. */
    const texture: Vec2u

    /** `BulletList::BulletList` and `BulletList::init`. */
    constructor (owner: Player, texture: Vec2u)
      ensures bullets == [] && this.owner == owner && this.texture == texture
    {
      bullets := [];
      this.owner := owner;
      this.texture := texture;
    }

    /** `BulletList::add`: map the state to a direction and append one
        bullet at the tail, or do nothing for states without one. */
    method Add(pos: Vec, state: int, speed: int)
      modifies this`bullets
      ensures bullets == old(bullets) + Fired(pos, state, speed, texture)
    {
      var dir := FireDirection(state);
      if dir.None? {
        return;
      }
      bullets := bullets + [NewBullet(pos, dir.value, speed, texture)];
    }

    /** `BulletList::remove`: unlink the node at index `i`. */
    method Remove(i: nat)
      modifies this`bullets
      ensures bullets == Unlink(old(bullets), i)
    {
      if i < |bullets| {
        bullets := bullets[..i] + bullets[i + 1..];
      }
    }

    /** `BulletList::update`: every bullet, in list order, is removed by a
        sandbag, removed by the first visible barrel it meets (which turns
        invisible), removed by the first soldier other than the owner it
        meets (who is reborn while the owner scores), removed outside the
        window, or else moved one step. `rng` supplies the draws of the
        reborn calls; `rest` is what is left of it. */
    method Update(players: seq<Player>, barrels: array<Barrel>, sandbags: seq<Sandbag>,
                  W: u32, H: u32, rng: seq<Draw>) returns (rest: seq<Draw>)
      requires AllValid(players) && Distinct(players)
      modifies this`bullets, barrels, players`pos, owner`score
      ensures AllValid(players)
      ensures var (t, kept) := UpdateSpec(old(bullets), Tick(old(barrels[..]), old(Bodies(players)), 0, rng),
                                          sandbags, owner, W, H);
        && bullets == kept && barrels[..] == t.barrels && Bodies(players) == t.bodies && rest == t.rng
        && owner.score == old(owner.score) + t.points
    {
      ghost var u := UpdateSpec(bullets, Tick(barrels[..], Bodies(players), 0, rng), sandbags, owner, W, H);
      ghost var t := Tick(barrels[..], Bodies(players), 0, rng);
      ghost var kept: seq<Bullet> := [];
      ghost var todo := bullets;
      rest := rng;
      assert kept + u.1 == u.1;
      var i := 0;
      while i < |bullets|
        invariant bullets == kept + todo && i == |kept|
        invariant AllValid(players)
        invariant t == Tick(barrels[..], Bodies(players), t.points, rest)
        invariant owner.score == old(owner.score) + t.points
        invariant u == (UpdateSpec(todo, t, sandbags, owner, W, H).0, kept + UpdateSpec(todo, t, sandbags, owner, W, H).1)
        decreases |todo|
      {
        FoldStep(u, todo, kept, t, sandbags, owner, W, H);
        ghost var (t1, out) := StepBullet(todo[0], t, sandbags, owner, W, H);
        i, rest := Visit(i, players, barrels, sandbags, W, H, rest, t, kept, todo);
        t, kept, todo := t1, kept + out, todo[1..];
      }
    }

    /** One pass of the loop of `BulletList::update`: the bullet at index
        `i`, the first of `todo`, acts on field `t` and is then moved or
        unlinked. */
    method Visit(i: nat, players: seq<Player>, barrels: array<Barrel>, sandbags: seq<Sandbag>,
                 W: u32, H: u32, rng: seq<Draw>, ghost t: Tick<Player>, ghost kept: seq<Bullet>,
                 ghost todo: seq<Bullet>) returns (next: nat, rest: seq<Draw>)
      requires AllValid(players) && Distinct(players)
      requires bullets == kept + todo && i == |kept| && todo != []
      requires t == Tick(barrels[..], Bodies(players), t.points, rng)
      modifies this`bullets, barrels, players`pos, owner`score
      ensures AllValid(players)
      ensures var (t1, out) := StepBullet(todo[0], t, sandbags, owner, W, H);
        && bullets == (kept + out) + todo[1..] && next == |kept + out|
        && t1 == Tick(barrels[..], Bodies(players), t1.points, rest)
        && owner.score == old(owner.score) + (t1.points - t.points)
    {
      assert bullets[i] == todo[0] && bullets[..i] == kept && bullets[i + 1..] == todo[1..];
      var survives;
      survives, rest := Step(bullets[i], players, barrels, sandbags, W, H, rng, t.points);
      next := Settle(i, survives);
    }

    /** The list surgery of one pass of the loop of `BulletList::update`:
        the bullet at index `i` is moved one step, or unlinked; `next` is
        the index of the bullet to visit next. */
    method Settle(i: nat, survives: bool) returns (next: nat)
      requires i < |bullets|
      modifies this`bullets
      ensures bullets == old(bullets[..i]) + (if survives then [Move(old(bullets[i]))] else []) + old(bullets[i + 1..])
      ensures next == if survives then i + 1 else i
    {
      assert bullets[..i] + bullets[i..] == bullets && bullets[i..][1..] == bullets[i + 1..];
      UnlinkAfter(bullets[..i], bullets[i..], Move(bullets[i]));
      if survives {
        bullets := bullets[i := Move(bullets[i])];
        next := i + 1;
      } else {
        Remove(i);
        next := i;
      }
    }

    /** The soldier-hit branch of `BulletList::update`: the soldier at
        index `k` is reborn and the owner scores. */
    method ScoreHit(players: seq<Player>, k: nat, barrels: array<Barrel>, sandbags: seq<Sandbag>,
                    W: u32, H: u32, rng: seq<Draw>, ghost points: nat) returns (rest: seq<Draw>)
      requires AllValid(players) && Distinct(players) && k < |players|
      modifies players`pos, owner`score
      ensures AllValid(players)
      ensures Tick(barrels[..], Bodies(players), points + 1, rest)
           == Scored(Tick(barrels[..], old(Bodies(players)), points, rng), k, sandbags, W, H)
      ensures owner.score == old(owner.score) + 1
    {
      ghost var t := Tick(barrels[..], Bodies(players), points, rng);
      ghost var r := Respawn(t.bodies, k, rng, t.barrels, sandbags, W, H);
      assert Scored(t, k, sandbags, W, H) == Tick(t.barrels, r.0, points + 1, r.1);
      rest := RebornAt(players, k, players[k], barrels, sandbags, W, H, rng);
      assert Bodies(players) == r.0;
      owner.IncrementScore();
      assert Bodies(players) == r.0;
    }

    /** One pass of the loop of `BulletList::update` for bullet `b`,
        without the list surgery: the field effect of its outcome, and
        whether the bullet survives (moved one step). */
    method Step(b: Bullet, players: seq<Player>, barrels: array<Barrel>, sandbags: seq<Sandbag>,
                W: u32, H: u32, rng: seq<Draw>, ghost points: nat) returns (survives: bool, rest: seq<Draw>)
      requires AllValid(players) && Distinct(players)
      modifies barrels, players`pos, owner`score
      ensures AllValid(players)
      ensures var (t, out) := StepBullet(b, Tick(old(barrels[..]), old(Bodies(players)), points, rng),
                                         sandbags, owner, W, H);
        && barrels[..] == t.barrels && Bodies(players) == t.bodies && rest == t.rng
        && owner.score == old(owner.score) + (t.points - points)
        && out == (if survives then [Move(b)] else [])
    {
      ghost var t := Tick(barrels[..], Bodies(players), points, rng);
      ghost var step := StepBullet(b, t, sandbags, owner, W, H);
      var o := Classify(b, owner, players, barrels, sandbags, W, H);
      rest, survives := rng, false;
      match o {
        case HitSandbag =>
          assert step == (t, []);
        case HitBarrel(k) =>
          barrels[k] := barrels[k].(visible := false);
          assert step.0 == t.(barrels := barrels[..]) && step.1 == [];
        case HitPlayer(k) =>
          rest := ScoreHit(players, k, barrels, sandbags, W, H, rng, points);
        case OutOfBounds =>
          assert step == (t, []);
        case Advance =>
          survives := true;
          assert step == (t, [Move(b)]);
      }
    }

  }
}
