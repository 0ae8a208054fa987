/** The soldier's 14-state walking machine (`Player::walk`, its switch
    part): states 0, 2, 4, 6 stand facing up, right, down, left; 1, 3, 5, 7
    are the half-turns between them; 8 to 13 are strides that carry the
    soldier one step further and fall back to the standing state. `s` is
    the stride parity and `oldDir` the guessed previous facing that decides
    which way a reversal turns (none before the first guess). */
module Locomotion {
  import opened Options
  import opened Geometry
  import opened Entities

  const NumStates: nat := 14

  datatype Gait = Gait(state: int, s: int, oldDir: Option<Direction>)

  const InitialGait: Gait := Gait(0, 0, None)

  /** The facing guess stored with each standing or striding state; the
      half-turn states may carry any guess. */
  predicate Consistent(state: int, oldDir: Option<Direction>) {
    && ((state == 2 || state == 6 || state == 9 || state == 10 || state == 12 || state == 13)
          ==> (oldDir == Some(Up) || oldDir == Some(Down)))
    && ((state == 4 || state == 11) ==> (oldDir == Some(Left) || oldDir == Some(Right)))
    && ((state == 0 || state == 8) ==> (oldDir != Some(Up) && oldDir != Some(Down)))
  }

  /** The values a running soldier's walking fields can hold. */
  predicate GaitValid(g: Gait) {
    0 <= g.state < NumStates && (g.s == 0 || g.s == 1) && Consistent(g.state, g.oldDir)
  }

  /** The switch of `Player::walk`: the next walking fields and the
      displacement requested for this call. Total: an unknown state, or a
      parity other than 0 and 1, leaves everything unchanged. Whenever a
      call moves the soldier, the state it ends in faces (and would fire)
      in the direction of the move. */
  function Transition(g: Gait, dir: Direction, speed: int): (r: (Gait, Vec))
    ensures r.1 != Zero ==>
      FireDirection(r.0.state).Some? && r.1 == Scale(Unit(FireDirection(r.0.state).value), speed)
  {
    var up, down, left, right := Vec(0, -speed), Vec(0, speed), Vec(-speed, 0), Vec(speed, 0);
    match g.state
    case 0 =>
      (match dir
       case Right => (g.(state := 1), Zero)
       case Left => (g.(s := 1, state := 7), Zero)
       case Down =>
         if g.oldDir == Some(Left) then (g.(s := 1, state := 7), Zero)
         else (g.(state := 1), Zero)
       case Up =>
         if g.s == 0 then (g.(state := 7, s := 1), up)
         else if g.s == 1 then (g.(state := 8, s := 0), up)
         else (g, Zero))
    case 1 =>
      (match dir
       case Up => (g.(state := 0, oldDir := Some(Right)), Zero)
       case Left => (g.(state := 0, oldDir := Some(Right)), Zero)
       case Down => (g.(state := 2, oldDir := Some(Up)), Zero)
       case Right => (g.(state := 2, oldDir := Some(Up)), Zero))
    case 2 =>
      (match dir
       case Up => (g.(state := 1), Zero)
       case Down => (g.(s := 1, state := 3), Zero)
       case Left =>
         if g.oldDir == Some(Up) then (g.(state := 1), Zero)
         else if g.oldDir == Some(Down) then (g.(s := 1, state := 3), Zero)
         else (g, Zero)
       case Right =>
         if g.s == 0 then (g.(s := 1, state := 10), right)
         else if g.s == 1 then (g.(s := 0, state := 9), right)
         else (g, Zero))
    case 3 =>
      (match dir
       case Up => (g.(state := 2, oldDir := Some(Down)), Zero)
       case Right => (g.(state := 2, oldDir := Some(Down)), Zero)
       case Down => (g.(state := 4, oldDir := Some(Right)), down)
       case Left => (g.(state := 4, oldDir := Some(Right)), Zero))
    case 4 =>
      (match dir
       case Right => (g.(state := 3, s := 1), Zero)
       case Left => (g.(state := 5), Zero)
       case Up =>
         if g.oldDir == Some(Right) then (g.(state := 3, s := 1), Zero)
         else if g.oldDir == Some(Left) then (g.(state := 5), Zero)
         else (g, Zero)
       case Down =>
         if g.s == 0 then (g.(state := 3, s := 1), down)
         else if g.s == 1 then (g.(state := 11, s := 0), down)
         else (g, Zero))
    case 5 =>
      (match dir
       case Up => (g.(state := 6, oldDir := Some(Down)), Zero)
       case Left => (g.(state := 6, oldDir := Some(Down)), Zero)
       case Down => (g.(state := 4, oldDir := Some(Left)), Zero)
       case Right => (g.(state := 4, oldDir := Some(Left)), Zero))
    case 6 =>
      (match dir
       case Up => (g.(state := 7, s := 1), Zero)
       case Down => (g.(state := 5), Zero)
       case Right =>
         if g.oldDir == Some(Down) then (g.(state := 5), Zero)
         else if g.oldDir == Some(Up) then (g.(state := 7, s := 1), Zero)
         else (g, Zero)
       case Left =>
         if g.s == 0 then (g.(state := 13, s := 1), left)
         else if g.s == 1 then (g.(state := 12, s := 0), left)
         else (g, Zero))
    case 7 =>
      (match dir
       case Up => (g.(state := 0, oldDir := Some(Left)), up)
       case Right => (g.(state := 0, oldDir := Some(Left)), Zero)
       case Down => (g.(state := 6, oldDir := Some(Up)), Zero)
       case Left => (g.(state := 6, oldDir := Some(Up)), Zero))
    case 8 => (g.(state := 0), up)
    case 9 => (g.(state := 2), right)
    case 10 => (g.(state := 2), right)
    case 11 => (g.(state := 4), down)
    case 12 => (g.(state := 6), left)
    case 13 => (g.(state := 6), left)
    case _ => (g, Zero)
  }

  /** The soldier starts in a valid walking configuration. */
  lemma InitialGaitValid()
    ensures GaitValid(InitialGait)
  {
  }

  /** Walking keeps the state in 0..13, the parity in {0, 1} and the
      facing guess consistent with the state. */
  lemma TransitionPreservesValid(g: Gait, dir: Direction, speed: int)
    requires GaitValid(g)
    ensures GaitValid(Transition(g, dir, speed).0)
  {
  }

  /** The displacement is zero or exactly `speed` along one axis. */
  lemma DisplacementShape(g: Gait, dir: Direction, speed: int)
    ensures var d := Transition(g, dir, speed).1;
      d == Zero || d == Vec(0, -speed) || d == Vec(0, speed) || d == Vec(-speed, 0) || d == Vec(speed, 0)
  {
  }

  /** The half-turns towards the right (state 1) and towards the left
      (state 5) never move the soldier. */
  lemma TurnsOneAndFiveStill(g: Gait, dir: Direction, speed: int)
    requires g.state == 1 || g.state == 5
    ensures Transition(g, dir, speed).1 == Zero
  {
  }

  /** The state a stride falls back to, and the direction it steps in. */
  function StrideHome(state: int): int
    requires 8 <= state <= 13
  {
    if state == 8 then 0 else if state <= 10 then 2 else if state == 11 then 4 else 6
  }

  /** A stride steps `speed` in its own facing and falls back to its
      standing state whatever the input, leaving parity and guess as they
      were. */
  lemma StridesReturnHome(g: Gait, dir: Direction, speed: int)
    requires 8 <= g.state <= 13
    ensures var (g', d) := Transition(g, dir, speed);
      && g' == g.(state := StrideHome(g.state))
      && FireDirection(g.state).Some?
      && d == Scale(Unit(FireDirection(g.state).value), speed)
  {
  }

  /** In the standing and turning states the soldier only ever moves in
      the direction that was pressed. */
  lemma MovesOnlyAsPressed(g: Gait, dir: Direction, speed: int)
    requires 0 <= g.state <= 7
    requires Transition(g, dir, speed).1 != Zero
    ensures Transition(g, dir, speed).1 == Scale(Unit(dir), speed)
  {
  }

  /** From any reachable configuration, every call changes the state: no
      key press leaves a soldier stuck in place. This needs the facing
      guess to be consistent: state 2 with no guess ignores LEFT. */
  lemma AlwaysChangesState(g: Gait, dir: Direction, speed: int)
    requires GaitValid(g)
    ensures Transition(g, dir, speed).0.state != g.state
  {
  }

  lemma StuckWithoutConsistentGuess()
    ensures Transition(Gait(2, 0, None), Left, 18) == (Gait(2, 0, None), Zero)
  {
  }

  /** Walks a whole sequence of key presses from `g`. */
  function Run(g: Gait, dirs: seq<Direction>, speed: int): Gait
    decreases |dirs|
  {
    if dirs == [] then g else Run(Transition(g, dirs[0], speed).0, dirs[1..], speed)
  }

  /** Every configuration reachable from the initial one by key presses is
      valid. */
  lemma {:induction false} RunPreservesValid(g: Gait, dirs: seq<Direction>, speed: int)
    requires GaitValid(g)
    ensures GaitValid(Run(g, dirs, speed))
    decreases |dirs|
  {
    if dirs != [] {
      TransitionPreservesValid(g, dirs[0], speed);
      RunPreservesValid(Transition(g, dirs[0], speed).0, dirs[1..], speed);
    }
  }
}
