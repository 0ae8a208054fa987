# Shooter collision and movement core in Dafny

This project models the rules of a two-soldier top-down shooter (`game.cpp`,
written in C++ on SFML), with drawing, input and timing removed. It covers:

- the axis-aligned box test `isCollide`;
- the shared sprite record of `Object` (position, texture size, shrink offset);
- barrels, which can lose their visibility;
- bullets: their creation, movement and list (`BulletList::add`, `remove`,
  `update`);
- the soldier (`Player`): its 14-state walking machine, firing, respawning
  and score;
- start-up placement (`Game::entityCollisionCheck`, `getRandCoord`,
  `initEntities`).

Modules, in dependency order:

- `Options`: the Option type.
- `Geometry`: positions, unsigned 32-bit texture extents with explicit
  wrap-around, and `IsCollide` with its meaning.
- `Entities`: sprites, barrels, sandbags and bullets as values; the
  state-to-direction switch of `add`; bullet spawning and moving; unlinking a
  list node.
- `Locomotion`: the switch of `Player::walk` as a total transition function on
  (`state`, `s`, `oldDir`), and its invariants.
- `Arena`: the field as a value. It defines:
  - what the collision checks of `walk`, `reborn` and `update` see;
  - the random draws;
  - one update tick of a bullet list, as a fold over its bullets.
- `Game`: the objects that change in place.
  - Class `Player` has fields `pos`, `state`, `s`, `oldDir` and `score`.
  - Class `BulletList` holds a `seq<Bullet>` in head-to-tail order.
  - Barrels are an `array<Barrel>`, and soldiers are a sequence of distinct
    `Player` objects.
  - The methods with loops (`walk`, `reborn`, the three collision loops,
    `update` and its passes) are proved equal to the corresponding function
    of `Locomotion` or `Arena`.
  - `Add`, `Remove` and `Fire` are proved equal to the list functions of
    `Entities` (`Fired`, `Unlink`).
  - `IncrementScore` and the constructors state the new field values
    outright.
- `Placement`: the collision-check array of `initEntities` as an
  `array<Entity>`, and the three placement loops. It proves that every
  layout they produce is spread apart by the padding.

`rand()` is replaced by a caller-supplied sequence of draws (`Draw`, two
non-negative numbers, one per axis). Each retry loop consumes draws from the
front and returns what is left. When the draws run out, the result is "not
placed" instead of looping forever.

Two facts of the code that the model keeps:

- At start-up the barrels are placed first, then the sandbags, then the
  soldiers (`game.cpp:1046-1073`).
- Respawning (`Player::reborn`, `game.cpp:590-640`) tests the soldier's own,
  unpadded box. Only start-up placement grows the boxes by the padding of 30
  (`game.cpp:982-984`).

## Model

| member | source | states |
|---|---|---|
| `Geometry.WrapSub` | game.cpp:237-243 | unsigned extent subtraction: the plain difference when no underflow, otherwise the difference plus 2^32 |
| `Geometry.WrapAdd` | game.cpp:983-985 | unsigned extent addition (size plus padding): the plain sum below 2^32, otherwise the sum minus 2^32 |
| `Geometry.IsCollide` | game.cpp:172-208 | the test of the source, case for case: the gap between the x coordinates is at most the width of the leftmost box (the first on a tie), and likewise for y; its meaning is stated by the next two rows |
| `Geometry.CollideIffIntervalsMeet` | game.cpp:172-208 | `isCollide` holds iff the closed x intervals [x, x+w] meet and the closed y intervals [y, y+h] meet (the gap to the leftmost/uppermost box is at most its width/height) |
| `Geometry.CollideIffCommonPoint` | game.cpp:172-208 | `isCollide` holds iff some point lies in both closed boxes |
| `Geometry.CollideSymmetric` | game.cpp:172-208 | the test does not depend on the order of the two boxes |
| `Geometry.CollideSamePosition` | game.cpp:172-208 | boxes at the same position always collide, whatever their sizes |
| `Geometry.CollideMonotone` | game.cpp:172-208 | enlarging either box never turns a collision into a miss |
| `Entities.Sprite.Size` | game.cpp:237-243 | `Object::getSize` is texture size minus shrink offset on each axis, whenever the offset does not exceed the texture |
| `Entities.NewBarrel` | game.cpp:262 | a new barrel is visible and stands where it was put |
| `Entities.FireDirection` | game.cpp:387-414 | states {0,7,8} fire UP, {2,9,10} RIGHT, {3,4,11} DOWN, {6,12,13} LEFT; states 1, 5 and any other value fire nothing (each direction iff its states) |
| `Entities.NewBullet` | game.cpp:277-338 | a new bullet keeps the given texture, its velocity is exactly `speed` along its direction's axis with its sign, and it spawns at the shooter's position plus (30,-25) UP, (0,60) DOWN, (-40,10) LEFT, (55,45) RIGHT |
| `Entities.NewBulletHitbox` | game.cpp:316-335 | the hitbox of a vertical bullet is its texture; a horizontal one's is 20 wider and 20 lower (offset -20 wrapping in unsigned arithmetic), when that does not wrap |
| `Entities.Move` | game.cpp:355-358 | one move keeps the velocity, texture, offset and hitbox size and advances each coordinate by the velocity |
| `Entities.MoveNPosition` | game.cpp:355-358 | `n` moves add `n` velocities and keep velocity, texture and offset |
| `Entities.FiredBulletAfter` | game.cpp:277-358 | after `n` moves a bullet fired in direction `d` is at the muzzle plus `n * speed` along `d` |
| `Entities.Fired` | game.cpp:387-431 | `add` creates at most one bullet, none exactly when the state has no firing direction, and that bullet flies in the direction at `speed` from the muzzle |
| `Entities.FiredShape` | game.cpp:387-431 | `add` keeps the earlier bullets in order and appends exactly one bullet flying in the state's direction at `speed`, or nothing for states without a direction |
| `Entities.Unlink` | game.cpp:436-446 | removing node `i` (with the pointer rewiring of `~Bullet`, lines 343-352) drops exactly that bullet: earlier ones stay, later ones close up in order; an index past the end (the null node) changes nothing |
| `Entities.UnlinkShape` | game.cpp:436-446 | removing a node loses only that bullet from the multiset, and removing the head makes the next node the head |
| `Locomotion.InitialGaitValid` | game.cpp:566-568 | the initial fields (state 0, parity 0, no guess) are a valid configuration |
| `Locomotion.Transition` | game.cpp:666-889 | the switch of `walk`: whenever the soldier moves, the state it ends in fires in the direction of the move, by exactly `speed` |
| `Locomotion.TransitionPreservesValid` | game.cpp:666-889 | walking keeps `state` in 0..13, `s` in {0,1} and the facing guess consistent with the state |
| `Locomotion.DisplacementShape` | game.cpp:666-889 | the requested displacement is zero or exactly `speed` along one axis |
| `Locomotion.TurnsOneAndFiveStill` | game.cpp:701-808 | the half-turn states 1 and 5 never move the soldier |
| `Locomotion.StridesReturnHome` | game.cpp:857-886 | states 8..13 step `speed` in their own facing and return to 0, 2, 2, 4, 6, 6 whatever the input, leaving `s` and `oldDir` alone |
| `Locomotion.MovesOnlyAsPressed` | game.cpp:667-856 | from states 0..7 a move is always in the pressed direction |
| `Locomotion.AlwaysChangesState` | game.cpp:666-889 | from a valid configuration every key press changes the state |
| `Locomotion.StuckWithoutConsistentGuess` | game.cpp:724-731 | example: state 2 with no facing guess ignores LEFT, which is why `AlwaysChangesState` needs the guess invariant |
| `Locomotion.RunPreservesValid` | game.cpp:666-889 | every configuration reached by a sequence of key presses from a valid one is valid |
| `Arena.FirstBarrel` | game.cpp:485-502 | the first visible barrel the box meets, and some visible barrel is met iff there is one |
| `Arena.FirstBody` | game.cpp:507-525 | the first soldier other than the given one the box meets, and some such soldier is met iff there is one |
| `Arena.RandCoord` | game.cpp:1012-1021 | a draw gives a position in [0, W-w) x [0, H-h) in unsigned arithmetic, and exists iff neither modulus is zero |
| `Arena.RandCoordInsideWindow` | game.cpp:1012-1021 | for an entity smaller than the window every draw lands it wholly inside the window |
| `Arena.RebornDraw` | game.cpp:591-640 | the spot `reborn` finds lies in [0, W-w) x [0, H-h), meets no visible barrel, no sandbag and no other soldier, comes from the last draw used, and only front draws are taken |
| `Arena.RebornDrawComplete` | game.cpp:594-640 | the search of `reborn` is complete: it gives up (None) iff every draw is rejected (zero modulus, or the drawn box meets a visible barrel, a sandbag or another soldier), and the spot found follows only rejected draws |
| `Arena.Respawn` | game.cpp:514 | respawning the soldier at index `k` takes only front draws; where the victim moves and which draws are left are stated by `HitSoldierEffect` |
| `Arena.Scored` | game.cpp:514-515 | the soldier-hit pair `reborn` then `incrementScore` on the field value; what it means (one point for the owner, the victim on `RebornDraw`'s spot or staying exactly when every draw is rejected, nothing else changed) is stated by `HitSoldierEffect` |
| `Arena.WalkTarget` | game.cpp:892-933 | after the transition the soldier either stays or moves by exactly the displacement onto a free spot inside the window; it moves whenever the target is free and inside, and stays whenever the target is obstructed |
| `Arena.WalkBounds` | game.cpp:926-931 | the window test of `walk` in unsigned arithmetic (halving as doubling, `W - w` wrapping); its meaning is stated by `WalkBoundsInWindow` |
| `Arena.WalkBoundsInWindow` | game.cpp:926-931 | for a soldier no larger than the window, the window test of `walk` holds iff at most half of it sticks out at the top and left and its right and bottom edges are inside the window |
| `Arena.OutOfWindow` | game.cpp:532-536 | the out-of-window test of `update` holds exactly when the bullet's closed box does not touch the window's box [0, W] x [0, H] |
| `Arena.Resolve` | game.cpp:460-541 | the index of a barrel or soldier outcome is a valid index; the full priority of the checks is `ResolvePriority` |
| `Arena.ResolvePriority` | game.cpp:460-541 | each bullet gets exactly one outcome, decided on its pre-move position, in the order sandbag, first visible barrel, first non-owner soldier, out of window, advance (each outcome iff its condition) |
| `Arena.StepBullet` | game.cpp:460-545 | one bullet either is gone or survives moved one step, and a bullet that survives leaves the field unchanged; the owner gains at most one point |
| `Arena.UpdateSpec` | game.cpp:451-547 | the loop of `update` as a fold: the bullets in list order, each on the field the bullets before it left; its properties are the rows `UpdateFrame`, `SurvivorsInOrder` and `InvisibleStaysInvisible` |
| `Arena.StepFrame` | game.cpp:460-546 | one bullet can only hide barrels, move soldiers, add points and take front draws, and it either survives or scores, never both |
| `Arena.UpdateFrame` | game.cpp:451-547 | a whole `update` never restores or moves a barrel, keeps soldiers' identity and size, gives at most one point per bullet and only takes front draws |
| `Arena.SurvivorsInOrder` | game.cpp:451-547 | the list after `update` is the surviving bullets, each moved one step, in their original order |
| `Arena.InvisibleStaysInvisible` | game.cpp:485-489 | an invisible barrel stays invisible after any update, so no bullet meets it again |
| `Arena.HitSoldierEffect` | game.cpp:507-525 | a bullet hitting a non-owner soldier gives exactly one point to the owner, removes the bullet and leaves the other soldiers and the barrels; the victim moves to the spot `RebornDraw` finds (inside the window, meeting nothing) and takes its draws, and it stays exactly when every draw is rejected |
| `Arena.HitBarrelEffect` | game.cpp:485-502 | a bullet hitting a visible barrel makes exactly that barrel invisible and is removed; the other barrels, the soldiers, the points and the draws are unchanged |
| `Arena.HitSandbagEffect` | game.cpp:468-480 | a bullet touching a sandbag is removed and changes nothing else, whatever else it touches |
| `Arena.FreeBulletFate` | game.cpp:532-545 | a bullet touching nothing is removed outside the window and otherwise moved by its velocity |
| `Game.Player.constructor` | game.cpp:550-575 | a new soldier has its textures, offset and position, state 0, parity 0, no guess, score 0 |
| `Game.Player.IncrementScore` | game.cpp:646 | the score rises by one |
| `Game.Player.Fire` | game.cpp:577-580 | firing appends to the list what `add` appends for the soldier's position and state |
| `Game.Player.Walk` | game.cpp:650-935 | the fields become the transition's, and the position becomes the target only if the box sized for the new state is free and inside the window |
| `Game.Player.Reborn` | game.cpp:583-644 | the soldier stands on the spot `RebornDraw` finds (where it was when the draws run out), and the draws left are returned |
| `Game.Player.Size` | game.cpp:937-943 | `Player::getSize` is the current state's texture size minus the shrink offset on each axis, whenever the offset does not exceed the texture |
| `Game.FreeSpot` | game.cpp:594-640 | the retry loop of `reborn` returns exactly `RebornDraw`'s spot and remaining draws |
| `Game.FindSandbag` | game.cpp:468-480 | the sandbag loop reports a hit iff the box meets some sandbag |
| `Game.FindBarrel` | game.cpp:485-502 | the barrel loop returns the first visible barrel met |
| `Game.FindBody` | game.cpp:507-525 | the soldier loop returns the first soldier other than the given one met |
| `Game.CheckObstructed` | game.cpp:892-923 | the three loops of `walk` and `reborn` report a hit iff the box meets a visible barrel, a sandbag or another soldier |
| `Game.Classify` | game.cpp:460-541 | the checks of `update` for one bullet return exactly `Resolve`'s outcome |
| `Game.RebornAt` | game.cpp:514 | respawning the soldier at index `k` changes only its position, as `Respawn` says, and keeps every soldier valid |
| `Game.BulletList.constructor` | game.cpp:378-383 | a new list is empty and belongs to its owner |
| `Game.BulletList.Add` | game.cpp:387-431 | the list becomes the old list followed by what the state fires |
| `Game.BulletList.Remove` | game.cpp:436-446 | the list becomes the old one with node `i` unlinked |
| `Game.BulletList.Update` | game.cpp:451-547 | the list, barrels, soldier positions, owner's score and draws left are exactly those of the fold `UpdateSpec` over the old list, with all soldiers kept valid |
| `Game.BulletList.Visit` | game.cpp:460-545 | one pass of the loop of `update` has exactly `StepBullet`'s effect on the list, the field and the owner's score |
| `Game.BulletList.Settle` | game.cpp:541-545 | the visited bullet is moved in place or unlinked, and the loop goes on at the next bullet |
| `Game.BulletList.ScoreHit` | game.cpp:513-519 | the hit soldier respawns and the owner's score rises by exactly one, as `Scored` says |
| `Game.BulletList.Step` | game.cpp:460-545 | one pass of the loop has exactly `StepBullet`'s effect on the field and reports whether the bullet survives |
| `Placement.EntityCollisionCheck` | game.cpp:979-991 | true iff some earlier entity, padded by 30 on both axes, meets the newest one, also padded (so false for index 0) |
| `Placement.PlaceSpec` | game.cpp:1048-1053 | the do-while of one entity returns a position in its drawing range whose padded box meets no earlier one, and only front draws are taken |
| `Placement.PlaceSpecComplete` | game.cpp:1047-1053 | the do-while of one entity gives up (None) iff every draw is refused (zero modulus, or the padded box meets an earlier one), and the position found comes from the first draw not refused |
| `Placement.PlaceEntity` | game.cpp:1047-1053 | the loop writes exactly `PlaceSpec`'s entity at the new slot and changes no other slot |
| `Placement.PlaceGroup` | game.cpp:1046-1054 | one loop of `initEntities` places its `n` entities exactly as `PlaceAll` does, and leaves every slot after the group untouched |
| `Placement.PlaceNext` | game.cpp:1047-1053 | one pass of a placement loop writes exactly `PlaceSpec`'s entity behind the placed prefix and leaves the slots after the group untouched |
| `Placement.PlaceAll` | game.cpp:1046-1073 | the placement loops as one function: each size in turn placed by `PlaceSpec` behind the ones before, stopping at the first failure; its properties are the rows `PlaceAllSpread` and `PlaceAllAppend` |
| `Placement.PlaceAllSpread` | game.cpp:1046-1073 | placing keeps the earlier entities, gives each new one its size and a position in its drawing range, and no two padded boxes meet |
| `Placement.PlaceAllAppend` | game.cpp:1046-1073 | placing two groups one after the other is placing them together |
| `Placement.SpreadApart` | game.cpp:979-991 | in a spread layout (with no unsigned wrap) no two entities' own boxes meet |
| `Placement.NewSoldiers` | game.cpp:1064-1073 | one new, distinct, valid soldier per spot, standing at it with score 0, and one empty bullet list per soldier |
| `Placement.PlaceLayout` | game.cpp:1046-1073 | the three loops place barrels, sandbags and soldiers as `PlaceAll` does on the concatenated sizes |
| `Placement.InitEntities` | game.cpp:1023-1080 | barrels (visible), sandbags and soldiers (state 0, score 0, own bullet list) stand at the positions of the `PlaceAll` layout, in that order |
| `Placement.InitLayoutSpread` | game.cpp:1023-1080 | every layout `initEntities` produces has one entity per barrel, sandbag and soldier, each of its kind's size, inside its range, and no two padded boxes meet |

## Left out

- Drawing is not modelled. This covers `paint`, sprite origins and rotation,
  the background, fonts and text, and the window itself. The window size is
  the pair of parameters `W` and `H`.
- Texture and font loading and their error messages are not modelled.
  Texture sizes are parameters, as are the sizes of the 14 soldier textures.
- The `run2player` event loop is not modelled. That covers key mapping, fire
  latching, the timing counters, the winner test at 10 points and the restart
  prompt. These are input and timing plumbing around the core.
- `Game::Game` is not modelled: it stores the configuration (speed, window
  size, entity counts), which are parameters here, and seeds `rand`, which
  the supplied draws replace. `drawBackground` and `drawText` only draw and
  are not modelled either.
- The per-frame sequencing of `Game::update` is not modelled:
  `drawEntities` (`game.cpp:1101-1113`) runs the `update` of every
  soldier's bullet list, in soldier order, once per frame
  (`game.cpp:1126-1132`). The model proves one list's `update`
  (`BulletList.Update`). A frame is those calls in that order, each on the
  field and draws the previous one left.
- `srand`/`rand` are replaced by the supplied draws.
- The unbounded `while (1)` and `do … while` retry loops stop when the draws
  run out. In that case they report "not placed", and `reborn` leaves the
  soldier where it was.
- A zero modulus in `rand() % (W - w)` is undefined behaviour in the source.
  Placement reports it as "not placed", and `reborn` leaves the soldier in
  place.
- `Game::getRandCoord` assigns its fields inside the constructor's argument
  list. The model reads this as x from the first number and y from the
  second.
- `sf::Vector2f` floating-point positions become integers. Every position
  the game computes is integral: offsets, a speed of 18, random draws
  modulo integers.
- The bullet list's `new`/`delete`, its destructor and the `next`/`prev`
  pointers are not modelled. The list is the sequence of its nodes from head
  to tail, and `remove` of a null node is an index past the end.
- `Game::initEntities` creates each object at (0,0) and then moves it. The
  model computes the layout first, then creates each object directly at its
  final position. The result is the same, but objects are only created when
  every placement succeeds.
- `Player::init` and `BulletList::init` are modelled as constructors of
  fresh objects. The source creates the objects first and initialises them
  in place later.
- `Placement.InitEntities`: does not state that the soldier bullet lists are
  fresh objects, only what they hold.
