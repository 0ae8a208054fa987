/** Start-up placement of the field (`Game::initEntities`): every barrel,
    sandbag and soldier, in that order, is put at random positions until
    its box, grown by a padding of 30 on both axes, meets no box placed
    before it. The positions tried come from a supplied sequence of draws
    instead of `rand()`. */
module Placement {
  import opened Options
  import opened Geometry
  import opened Entities
  import opened Locomotion
  import opened Arena
  import opened Game

  /** A slot of the collision-check array: position and size. */
  datatype Entity = Entity(pos: Vec, size: Vec2u)

  /** Minimum closeness between created entities. */
  const Padding: u32 := 30

  function Padded(size: Vec2u): Vec2u {
    AddU(size, Vec2u(Padding, Padding))
  }

  predicate PaddedCollide(a: Entity, b: Entity) {
    IsCollide(a.pos, Padded(a.size), b.pos, Padded(b.size))
  }

  /** `e`, padded, meets one of the `placed` entities, padded. */
  predicate Clashes(placed: seq<Entity>, e: Entity) {
    exists i :: 0 <= i < |placed| && PaddedCollide(placed[i], e)
  }

  /** No two entities of the layout come closer than the padding. */
  predicate Spread(es: seq<Entity>) {
    forall i, j :: 0 <= i < j < |es| ==> !PaddedCollide(es[i], es[j])
  }

  /** `Game::entityCollisionCheck`: does the entity at `last` meet any
      earlier one, both grown by the padding. */
  method EntityCollisionCheck(entities: array<Entity>, last: nat) returns (hit: bool)
    requires last < entities.Length
    ensures hit == Clashes(entities[..last], entities[last])
  {
    var i := 0;
    while i < last
      invariant 0 <= i <= last
      invariant forall j :: 0 <= j < i ==> !PaddedCollide(entities[j], entities[last])
    {
      if IsCollide(entities[i].pos, Padded(entities[i].size), entities[last].pos, Padded(entities[last].size)) {
        assert PaddedCollide(entities[..last][i], entities[last]);
        return true;
      }
      i := i + 1;
    }
    assert forall j :: 0 <= j < last ==> entities[..last][j] == entities[j];
    return false;
  }

  /** A draw that gives an entity of size `size` no place: the modulus is
      zero, or its padded box at the position drawn meets a `placed` one. */
  predicate Refused(placed: seq<Entity>, d: Draw, size: Vec2u, W: u32, H: u32) {
    match RandCoord(d, size, W, H)
    case None => true
    case Some(p) => Clashes(placed, Entity(p, size))
  }

  /** The do-while of `Game::initEntities` for one entity of size `size`:
      the first draw (by `Game::getRandCoord`) whose padded box does not
      meet the `placed` ones, and the draws left. None when the draws run
      out, or when a modulus is zero. */
  function PlaceSpec(placed: seq<Entity>, size: Vec2u, rng: seq<Draw>, W: u32, H: u32): (r: (Option<Vec>, seq<Draw>))
    ensures SuffixOf(r.1, rng)
    ensures r.0.Some? ==> && 0 <= r.0.value.x < WrapSub(W, size.x) && 0 <= r.0.value.y < WrapSub(H, size.y)
                          && !Clashes(placed, Entity(r.0.value, size))
    decreases |rng|
  {
    if WrapSub(W, size.x) == 0 || WrapSub(H, size.y) == 0 then (None, rng)
    else if rng == [] then (None, [])
    else
      var p := RandCoord(rng[0], size, W, H).value;
      if Clashes(placed, Entity(p, size)) then PlaceSpec(placed, size, rng[1..], W, H)
      else (Some(p), rng[1..])
  }

  /** The search is complete: the position found comes from the first
      draw that is not refused, and None means that every draw is refused. */
  lemma {:induction false} PlaceSpecComplete(placed: seq<Entity>, size: Vec2u, rng: seq<Draw>, W: u32, H: u32)
    ensures var r := PlaceSpec(placed, size, rng, W, H);
      && (r.0.None? <==> forall j :: 0 <= j < |rng| ==> Refused(placed, rng[j], size, W, H))
      && (r.0.Some? ==> |r.1| < |rng| && RandCoord(rng[|rng| - |r.1| - 1], size, W, H) == r.0)
      && (r.0.Some? ==> forall j :: 0 <= j < |rng| - |r.1| - 1 ==> Refused(placed, rng[j], size, W, H))
    decreases |rng|
  {
    if WrapSub(W, size.x) == 0 || WrapSub(H, size.y) == 0 {
      forall j | 0 <= j < |rng|
        ensures Refused(placed, rng[j], size, W, H)
      {
      }
    } else if rng != [] {
      var p := RandCoord(rng[0], size, W, H).value;
      if Clashes(placed, Entity(p, size)) {
        PlaceSpecComplete(placed, size, rng[1..], W, H);
        assert forall j :: 1 <= j < |rng| ==> rng[j] == rng[1..][j - 1];
      } else {
        assert !Refused(placed, rng[0], size, W, H);
      }
    }
  }

  /** Entities of the given sizes placed one after another behind
      `placed`; None as soon as one cannot be placed. */
  function PlaceAll(placed: seq<Entity>, sizes: seq<Vec2u>, rng: seq<Draw>, W: u32, H: u32)
    : (Option<seq<Entity>>, seq<Draw>)
    decreases |sizes|
  {
    if sizes == [] then (Some(placed), rng)
    else
      var (spot, rest) := PlaceSpec(placed, sizes[0], rng, W, H);
      if spot.None? then (None, rest)
      else PlaceAll(placed + [Entity(spot.value, sizes[0])], sizes[1..], rest, W, H)
  }

  /** The entity lies inside the range `Game::getRandCoord` draws from. */
  predicate Drawable(e: Entity, W: u32, H: u32) {
    0 <= e.pos.x < WrapSub(W, e.size.x) && 0 <= e.pos.y < WrapSub(H, e.size.y)
  }

  /** An entity that clashes with none of a spread layout extends it. */
  lemma SpreadExtend(placed: seq<Entity>, e: Entity)
    requires Spread(placed) && !Clashes(placed, e)
    ensures Spread(placed + [e])
  {
    var next := placed + [e];
    forall i, j | 0 <= i < j < |next|
      ensures !PaddedCollide(next[i], next[j])
    {
      if j == |placed| {
        assert next[i] == placed[i] && next[j] == e;
      }
    }
  }

  /** Each placement keeps the layout spread: the earlier entities stay,
      every new one gets its own size and a position inside its drawing
      range, and no two padded boxes meet. */
  lemma {:induction false} PlaceAllSpread(placed: seq<Entity>, sizes: seq<Vec2u>, rng: seq<Draw>, W: u32, H: u32)
    requires Spread(placed)
    ensures var es := PlaceAll(placed, sizes, rng, W, H).0;
      es.Some? ==>
        && |es.value| == |placed| + |sizes| && es.value[..|placed|] == placed && Spread(es.value)
        && forall k :: 0 <= k < |sizes| ==>
             es.value[|placed| + k].size == sizes[k] && Drawable(es.value[|placed| + k], W, H)
    decreases |sizes|
  {
    if sizes != [] {
      var (spot, rest) := PlaceSpec(placed, sizes[0], rng, W, H);
      if spot.Some? {
        var e := Entity(spot.value, sizes[0]);
        var next := placed + [e];
        SpreadExtend(placed, e);
        PlaceAllSpread(next, sizes[1..], rest, W, H);
        var es := PlaceAll(placed, sizes, rng, W, H).0;
        assert es == PlaceAll(next, sizes[1..], rest, W, H).0;
        if es.Some? {
          assert es.value[..|next|] == next;
          assert es.value[..|placed|] == next[..|placed|];
          forall k | 0 <= k < |sizes|
            ensures es.value[|placed| + k].size == sizes[k] && Drawable(es.value[|placed| + k], W, H)
          {
            if k == 0 {
              assert es.value[|placed|] == next[|placed|] == e;
            } else {
              var j := k - 1;
              assert 0 <= j < |sizes[1..]| && sizes[k] == sizes[1..][j];
              assert es.value[|placed| + k] == es.value[|next| + j];
            }
          }
        }
      }
    }
  }

  /** Placing two groups one after the other is placing them together. */
  lemma {:induction false} PlaceAllAppend(placed: seq<Entity>, s1: seq<Vec2u>, s2: seq<Vec2u>, rng: seq<Draw>,
                                          W: u32, H: u32)
    ensures var (es, r) := PlaceAll(placed, s1, rng, W, H);
      PlaceAll(placed, s1 + s2, rng, W, H).0 == (if es.Some? then PlaceAll(es.value, s2, r, W, H).0 else None)
      && (es.Some? ==> PlaceAll(placed, s1 + s2, rng, W, H) == PlaceAll(es.value, s2, r, W, H))
    decreases |s1|
  {
    if s1 != [] {
      assert (s1 + s2)[0] == s1[0] && (s1 + s2)[1..] == s1[1..] + s2;
      var (spot, rest) := PlaceSpec(placed, s1[0], rng, W, H);
      if spot.Some? {
        PlaceAllAppend(placed + [Entity(spot.value, s1[0])], s1[1..], s2, rest, W, H);
      }
    } else {
      assert s1 + s2 == s2;
    }
  }

  /** The padding is a true margin: in a spread layout whose padded sizes
      do not wrap, no two entities' own boxes meet. */
  lemma SpreadApart(es: seq<Entity>, i: nat, j: nat)
    requires Spread(es) && i < |es| && j < |es| && i != j
    requires es[i].size.x + Padding < U32 && es[i].size.y + Padding < U32
    requires es[j].size.x + Padding < U32 && es[j].size.y + Padding < U32
    ensures !IsCollide(es[i].pos, es[i].size, es[j].pos, es[j].size)
  {
    if i < j {
      assert !PaddedCollide(es[i], es[j]);
    } else {
      assert !PaddedCollide(es[j], es[i]);
      CollideSymmetric(es[j].pos, Padded(es[j].size), es[i].pos, Padded(es[i].size));
    }
    if IsCollide(es[i].pos, es[i].size, es[j].pos, es[j].size) {
      CollideMonotone(es[i].pos, es[i].size, Padded(es[i].size), es[j].pos, es[j].size, Padded(es[j].size));
    }
  }

  /** The do-while of `Game::initEntities` for the entity at `last`: set
      its size, then its position from each draw in turn, until
      `EntityCollisionCheck` finds no clash. `ok` is false when the draws
      run out or a modulus is zero. Only slot `last` changes. */
  method PlaceEntity(entities: array<Entity>, last: nat, size: Vec2u, W: u32, H: u32, rng: seq<Draw>)
    returns (ok: bool, rest: seq<Draw>)
    requires last < entities.Length
    modifies entities
    ensures var (spot, r) := PlaceSpec(old(entities[..last]), size, rng, W, H);
      && ok == spot.Some? && rest == r
      && (ok ==> entities[..last + 1] == old(entities[..last]) + [Entity(spot.value, size)])
    ensures forall i :: 0 <= i < entities.Length && i != last ==> entities[i] == old(entities[i])
    ensures entities[last + 1..] == old(entities[last + 1..])
  {
    ghost var placed := entities[..last];
    ghost var spec := PlaceSpec(placed, size, rng, W, H);
    entities[last] := entities[last].(size := size);
    var lx, ly := WrapSub(W, size.x), WrapSub(H, size.y);
    if lx == 0 || ly == 0 {
      return false, rng;
    }
    var k := 0;
    while k < |rng|
      invariant 0 <= k <= |rng|
      invariant entities[..last] == placed
      invariant forall i :: 0 <= i < entities.Length && i != last ==> entities[i] == old(entities[i])
      invariant spec == PlaceSpec(placed, size, rng[k..], W, H)
    {
      entities[last] := Entity(Vec(rng[k].rx % lx, rng[k].ry % ly), size);
      assert entities[..last] == placed;
      assert RandCoord(rng[k], size, W, H) == Some(entities[last].pos);
      var hit := EntityCollisionCheck(entities, last);
      assert rng[k..][1..] == rng[k + 1..];
      if !hit {
        assert entities[..last + 1] == placed + [entities[last]];
        return true, rng[k + 1..];
      }
      k := k + 1;
    }
    return false, [];
  }

  /** `n` copies of one size. */
  function Repeat(size: Vec2u, n: nat): (r: seq<Vec2u>)
    ensures |r| == n && forall i :: 0 <= i < n ==> r[i] == size
  {
    seq(n, _ => size)
  }

  /** One loop of `Game::initEntities`: `n` entities of size `size` placed
      at slots `start` .. `start + n - 1` behind the ones already there. */
  method PlaceGroup(entities: array<Entity>, start: nat, n: nat, size: Vec2u, W: u32, H: u32, rng: seq<Draw>)
    returns (ok: bool, rest: seq<Draw>)
    requires start + n <= entities.Length
    modifies entities
    ensures var (es, r) := PlaceAll(old(entities[..start]), Repeat(size, n), rng, W, H);
      ok == es.Some? && (ok ==> entities[..start + n] == es.value && rest == r)
    ensures entities[start + n..] == old(entities[start + n..])
  {
    ghost var spec := PlaceAll(entities[..start], Repeat(size, n), rng, W, H);
    ghost var placed := entities[..start];
    ghost var todo := Repeat(size, n);
    ghost var tail := entities[start + n..];
    rest := rng;
    var i := 0;
    while i < n
      invariant 0 <= i <= n && |placed| == start + i && |todo| == n - i
      invariant entities[..start + i] == placed
      invariant entities[start + n..] == tail
      invariant forall k :: 0 <= k < |todo| ==> todo[k] == size
      invariant spec == PlaceAll(placed, todo, rest, W, H)
    {
      ghost var step := PlaceSpec(placed, size, rest, W, H);
      assert todo[0] == size;
      ok, rest := PlaceNext(entities, start + i, start + n, size, W, H, rest, placed);
      if !ok {
        assert spec == (None, rest);
        return;
      }
      placed, todo := placed + [Entity(step.0.value, size)], todo[1..];
      i := i + 1;
    }
    ok := true;
  }

  /** One pass of such a loop: `PlaceEntity` at slot `last`, seen from
      the group, whose slots from `end` on stay untouched. */
  method PlaceNext(entities: array<Entity>, last: nat, end: nat, size: Vec2u, W: u32, H: u32,
                   rng: seq<Draw>, ghost placed: seq<Entity>) returns (ok: bool, rest: seq<Draw>)
    requires last < end <= entities.Length && entities[..last] == placed
    modifies entities
    ensures var (spot, r) := PlaceSpec(placed, size, rng, W, H);
      && ok == spot.Some? && rest == r
      && (ok ==> entities[..last + 1] == placed + [Entity(spot.value, size)])
    ensures entities[end..] == old(entities[end..])
  {
    ghost var after := entities[last + 1..];
    assert after[end - last - 1..] == entities[end..];
    ok, rest := PlaceEntity(entities, last, size, W, H, rng);
    assert entities[end..] == after[end - last - 1..];
  }

  /** The sizes `Game::initEntities` puts in the collision-check array:
      the barrels', then the sandbags', then the soldiers' (their first
      texture), each less its shrink offset. */
  function Sizes(nb: nat, ns: nat, np: nat, barrelTex: Vec2u, bagTex: Vec2u, soldierTex: Vec2u): seq<Vec2u> {
    Repeat(SubU(barrelTex, BarrelOffset), nb) + Repeat(SubU(bagTex, SandbagOffset), ns)
      + Repeat(SubU(soldierTex, SoldierOffset), np)
  }

  /** A soldier as `Player::init` leaves it at `spot`: standing, facing
      up, with no guess and no points. */
  ghost predicate Recruit(p: Player, spot: Vec, textures: seq<Vec2u>)
    reads p
  {
    && p.Valid() && p.pos == spot && p.textures == textures && p.offset == SoldierOffset
    && p.Walking() == InitialGait && p.score == 0
  }

  /** A bullet list as `BulletList::init` leaves it for `owner`. */
  predicate EmptyListOf(list: BulletList, owner: Player, texture: Vec2u)
    reads list
  {
    list.owner == owner && list.bullets == [] && list.texture == texture
  }

  /** The soldier loop of `Game::initEntities` after placement: a soldier
      (`Player::init`) at each given position, and its empty bullet list
      (`BulletList::init`). */
  method NewSoldiers(spots: seq<Vec>, soldierTex: seq<Vec2u>, bulletTex: Vec2u)
    returns (players: seq<Player>, lists: seq<BulletList>)
    requires |soldierTex| == NumStates
    ensures |players| == |spots| && Distinct(players)
    ensures forall i :: 0 <= i < |spots| ==> fresh(players[i]) && Recruit(players[i], spots[i], soldierTex)
    ensures |lists| == |spots|
    ensures forall i :: 0 <= i < |spots| ==> EmptyListOf(lists[i], players[i], bulletTex)
  {
    players, lists := [], [];
    var i := 0;
    while i < |spots|
      invariant 0 <= i <= |spots| && |players| == i && |lists| == i
      invariant Distinct(players)
      invariant forall q :: 0 <= q < i ==> fresh(players[q]) && Recruit(players[q], spots[q], soldierTex)
      invariant forall q :: 0 <= q < i ==> EmptyListOf(lists[q], players[q], bulletTex)
    {
      var p := new Player(soldierTex, spots[i], SoldierOffset);
      var list := new BulletList(p, bulletTex);
      players, lists := players + [p], lists + [list];
      i := i + 1;
    }
  }

  /** The three placement loops of `Game::initEntities` on a fresh
      collision-check array: barrels, then sandbags, then soldiers. */
  method PlaceLayout(nb: nat, ns: nat, np: nat, sb: Vec2u, ss: Vec2u, sp: Vec2u, W: u32, H: u32, rng: seq<Draw>)
    returns (ok: bool, layout: seq<Entity>, rest: seq<Draw>)
    ensures var (es, r) := PlaceAll([], Repeat(sb, nb) + Repeat(ss, ns) + Repeat(sp, np), rng, W, H);
      ok == es.Some? && (ok ==> layout == es.value && rest == r)
    ensures ok ==> |layout| == nb + ns + np
  {
    layout := [];
    var entities := new Entity[nb + ns + np](_ => Entity(Zero, Vec2u(0, 0)));
    ghost var s1, s2, s3 := Repeat(sb, nb), Repeat(ss, ns), Repeat(sp, np);
    ghost var (es1, r1) := PlaceAll([], s1, rng, W, H);
    PlaceAllAppend([], s1 + s2, s3, rng, W, H);
    PlaceAllAppend([], s1, s2, rng, W, H);
    assert entities[..0] == [];
    ok, rest := PlaceGroup(entities, 0, nb, sb, W, H, rng);
    if !ok {
      return;
    }
    ghost var (es2, r2) := PlaceAll(es1.value, s2, r1, W, H);
    ok, rest := PlaceGroup(entities, nb, ns, ss, W, H, rest);
    if !ok {
      return;
    }
    assert PlaceAll([], s1 + s2, rng, W, H) == (es2, r2);
    ok, rest := PlaceGroup(entities, nb + ns, np, sp, W, H, rest);
    if !ok {
      return;
    }
    assert entities[..] == entities[..nb + ns + np];
    layout := entities[..];
  }

  /** `Game::initEntities`: the barrels (visible), the sandbags and the
      soldiers (standing, facing up, no points) at the positions of a
      spread layout, and one empty bullet list per soldier. `ok` is false
      when a placement runs out of draws. */
  method InitEntities(nb: nat, ns: nat, np: nat, barrelTex: Vec2u, bagTex: Vec2u,
                      soldierTex: seq<Vec2u>, bulletTex: Vec2u, W: u32, H: u32, rng: seq<Draw>)
    returns (ok: bool, layout: seq<Entity>, barrels: array<Barrel>, sandbags: seq<Sandbag>,
             players: seq<Player>, lists: seq<BulletList>, rest: seq<Draw>)
    requires |soldierTex| == NumStates
    ensures var (es, r) := PlaceAll([], Sizes(nb, ns, np, barrelTex, bagTex, soldierTex[0]), rng, W, H);
      ok == es.Some? && (ok ==> layout == es.value && rest == r)
    ensures ok ==> |layout| == nb + ns + np
    ensures ok ==> barrels.Length == nb && forall i :: 0 <= i < nb ==> barrels[i] == NewBarrel(layout[i].pos, barrelTex)
    ensures ok ==> |sandbags| == ns
                   && forall i :: 0 <= i < ns ==> sandbags[i] == Sprite(layout[nb + i].pos, bagTex, SandbagOffset)
    ensures ok ==> |players| == np && AllValid(players) && Distinct(players)
                   && forall i :: 0 <= i < np ==> fresh(players[i]) && Recruit(players[i], layout[nb + ns + i].pos, soldierTex)
    ensures ok ==> |lists| == np && forall i :: 0 <= i < np ==> EmptyListOf(lists[i], players[i], bulletTex)
  {
    barrels, sandbags, players, lists := new Barrel[0], [], [], [];
    ok, layout, rest := PlaceLayout(nb, ns, np, SubU(barrelTex, BarrelOffset), SubU(bagTex, SandbagOffset),
                                    SubU(soldierTex[0], SoldierOffset), W, H, rng);
    if !ok {
      return;
    }
    barrels := new Barrel[nb](i requires 0 <= i < nb => NewBarrel(layout[i].pos, barrelTex));
    sandbags := seq(ns, i requires 0 <= i < ns => Sprite(layout[nb + i].pos, bagTex, SandbagOffset));
    var spots := seq(np, i requires 0 <= i < np => layout[nb + ns + i].pos);
    assert forall i :: 0 <= i < np ==> spots[i] == layout[nb + ns + i].pos;
    players, lists := NewSoldiers(spots, soldierTex, bulletTex);
    assert forall i :: 0 <= i < np ==> players[i].Valid();
  }

  /** Every layout `Game::initEntities` produces is spread, each entity
      has its kind's size and lies inside its drawing range. */
  lemma InitLayoutSpread(nb: nat, ns: nat, np: nat, barrelTex: Vec2u, bagTex: Vec2u, soldierTex: Vec2u,
                         rng: seq<Draw>, W: u32, H: u32)
    ensures var sizes := Sizes(nb, ns, np, barrelTex, bagTex, soldierTex);
      var es := PlaceAll([], sizes, rng, W, H).0;
      es.Some? ==>
        && |es.value| == nb + ns + np && Spread(es.value)
        && forall k :: 0 <= k < |es.value| ==>
             (&& es.value[k].size == sizes[k]
              && Drawable(es.value[k], W, H))
  {
    var sizes := Sizes(nb, ns, np, barrelTex, bagTex, soldierTex);
    PlaceAllSpread([], sizes, rng, W, H);
    var es := PlaceAll([], sizes, rng, W, H).0;
    if es.Some? {
      forall k | 0 <= k < |es.value|
        ensures es.value[k].size == sizes[k]
      {
        assert es.value[0 + k] == es.value[k];
      }
    }
  }
}
