/** The W/A/S/D flags, and the velocity and walking direction they give:
    opposing keys cancel each other out. */
module Walking {

  import opened States
  import opened Qt

  /** (vertical, horizontal) unit steps to directions; -1 is up or left. */
  const DirectionMap: map<(int, int), Direction> := map[
    (0, 0) := None,
    (-1, 0) := Up,
    (1, 0) := Down,
    (0, -1) := Left,
    (0, 1) := Right,
    (-1, -1) := UpLeft,
    (-1, 1) := UpRight,
    (1, -1) := DownLeft,
    (1, 1) := DownRight]

  /** The four movement flags. */
  datatype Keys = Keys(w: bool, a: bool, s: bool, d: bool)

  const NoKeys: Keys := Keys(false, false, false, false)

  /** One axis: -1 when only the negative key is held, +1 when only the
      positive one is, 0 when both or neither are. */
  function Axis(negative: bool, positive: bool): (step: int)
    ensures -1 <= step <= 1
    ensures step == 0 <==> negative == positive
    ensures step == -1 <==> negative && !positive
  {
    if negative != positive then (if negative then -1 else 1) else 0
  }

  /** get_velocity: (vx, vy) at speed v. */
  function Velocity(k: Keys, v: int): (int, int)
  {
    (Axis(k.a, k.d) * v, Axis(k.w, k.s) * v)
  }

  /** is_moving */
  predicate Moving(k: Keys)
  {
    (k.w != k.s) || (k.a != k.d)
  }

  /** get_direction */
  function DirectionOf(k: Keys): Direction
  {
    var step := (Axis(k.w, k.s), Axis(k.a, k.d));
    assert step in DirectionMap;
    DirectionMap[step]
  }

  /** The step a direction stands for: DirectionMap read backwards. */
  function Step(dir: Direction): (int, int)
  {
    match dir
    case None => (0, 0)
    case Up => (-1, 0)
    case Down => (1, 0)
    case Left => (0, -1)
    case Right => (0, 1)
    case UpLeft => (-1, -1)
    case UpRight => (-1, 1)
    case DownLeft => (1, -1)
    case DownRight => (1, 1)
  }

  /** DirectionMap is a bijection between the nine steps and the nine
      directions. */
  lemma DirectionMapInverse(p: (int, int), dir: Direction)
    ensures p in DirectionMap ==> Step(DirectionMap[p]) == p
    ensures Step(dir) in DirectionMap && DirectionMap[Step(dir)] == dir
  {
  }

  /** record_key_press */
  function Pressed(k: Keys, key: int): (r: Keys)
  {
    if key == KeyW then k.(w := true)
    else if key == KeyA then k.(a := true)
    else if key == KeyS then k.(s := true)
    else if key == KeyD then k.(d := true)
    else k
  }

  /** record_key_release */
  function Released(k: Keys, key: int): (r: Keys)
  {
    if key == KeyW then k.(w := false)
    else if key == KeyA then k.(a := false)
    else if key == KeyS then k.(s := false)
    else if key == KeyD then k.(d := false)
    else k
  }

  /** Vertical velocity is -v with only W held, +v with only S held and 0
      otherwise; horizontally the same for A and D. */
  lemma VelocityByAxis(k: Keys, v: int)
    ensures Velocity(k, v).1 == (if k.w && !k.s then -v else if k.s && !k.w then v else 0)
    ensures Velocity(k, v).0 == (if k.a && !k.d then -v else if k.d && !k.a then v else 0)
  {
  }

  /** The direction is NONE exactly when the gremlin is not moving, and a
      positive speed moves it along its direction's step. */
  lemma VelocityFollowsDirection(k: Keys, v: int)
    ensures DirectionOf(k) == None <==> !Moving(k)
    ensures Velocity(k, v) == (Step(DirectionOf(k)).1 * v, Step(DirectionOf(k)).0 * v)
    ensures v > 0 ==> (Velocity(k, v) == (0, 0) <==> !Moving(k))
  {
    var step := (Axis(k.w, k.s), Axis(k.a, k.d));
    DirectionMapInverse(step, None);
  }

  /** Both axes active give the diagonal; a cancelled axis leaves the other. */
  lemma DirectionExamples()
    ensures DirectionOf(Keys(true, true, false, false)) == UpLeft
    ensures DirectionOf(Keys(false, false, true, true)) == DownRight
    ensures DirectionOf(Keys(true, true, true, false)) == Left
    ensures DirectionOf(Keys(true, true, true, true)) == None
  {
  }

  /** A press or release changes the flag of its own key only, and nothing
      for any other key. */
  lemma RecordTouchesOneFlag(k: Keys, key: int)
    ensures key !in {KeyW, KeyA, KeyS, KeyD} ==> Pressed(k, key) == k && Released(k, key) == k
    ensures key == KeyW ==> Pressed(k, key) == k.(w := true) && Released(k, key) == k.(w := false)
    ensures key == KeyA ==> Pressed(k, key) == k.(a := true) && Released(k, key) == k.(a := false)
    ensures key == KeyS ==> Pressed(k, key) == k.(s := true) && Released(k, key) == k.(s := false)
    ensures key == KeyD ==> Pressed(k, key) == k.(d := true) && Released(k, key) == k.(d := false)
  {
  }

  /** Releasing a key that was pressed while up restores the flags. */
  lemma PressThenRelease(k: Keys, key: int)
    requires key == KeyW ==> !k.w
    requires key == KeyA ==> !k.a
    requires key == KeyS ==> !k.s
    requires key == KeyD ==> !k.d
    ensures Released(Pressed(k, key), key) == k
  {
  }

  /** With no key held the gremlin stands still. */
  lemma NoKeysStill(v: int)
    ensures !Moving(NoKeys) && DirectionOf(NoKeys) == None && Velocity(NoKeys, v) == (0, 0)
  {
  }

  class WalkManager {
    var w: bool
    var a: bool
    var s: bool
    var d: bool

    /** Pixels per frame. */
    const v: int

    ghost function View(): Keys
      reads this
    {
      Keys(w, a, s, d)
    }

    constructor (moveSpeed: int)
      ensures View() == NoKeys && v == moveSpeed
    {
      w, a, s, d := false, false, false, false;
      v := moveSpeed;
    }

    method GetVelocity() returns (vx: int, vy: int)
      ensures (vx, vy) == Velocity(View(), v)
    {
      vy := 0;
      vx := 0;
      if w != s {
        vy := if w then -v else v;
      }
      if a != d {
        vx := if a then -v else v;
      }
    }

    method IsMoving() returns (moving: bool)
      ensures moving == Moving(View())
    {
      moving := (w != s) || (a != d);
    }

    method GetDirection() returns (dir: Direction)
      ensures dir == DirectionOf(View())
    {
      var ver, hor := 0, 0;
      if w != s {
        ver := if w then -1 else 1;
      }
      if a != d {
        hor := if a then -1 else 1;
      }
      dir := DirectionMap[(ver, hor)];
    }

    method RecordKeyPress(event: KeyEvent)
      modifies this`w, this`a, this`s, this`d
      ensures View() == Pressed(old(View()), event.key)
    {
      var key := event.key;
      if key == KeyW {
        w := true;
      } else if key == KeyA {
        a := true;
      } else if key == KeyS {
        s := true;
      } else if key == KeyD {
        d := true;
      }
    }

    method RecordKeyRelease(event: KeyEvent)
      modifies this`w, this`a, this`s, this`d
      ensures View() == Released(old(View()), event.key)
    {
      var key := event.key;
      if key == KeyW {
        w := false;
      } else if key == KeyA {
        a := false;
      } else if key == KeyS {
        s := false;
      } else if key == KeyD {
        d := false;
      }
    }

    /** Stops all movement when the pointer leaves the window. */
    method RecordMouseLeave()
      modifies this`w, this`a, this`s, this`d
      ensures View() == NoKeys
    {
      w, a, s, d := false, false, false, false;
    }
  }
}
