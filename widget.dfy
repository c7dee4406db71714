/** The parts of the gremlin's top-level window that the managers touch: its
    position on screen, whether it holds the keyboard focus, and whether its
    own input handlers are still bound. */
module Widgets {

  import opened Qt
  import opened Walking

  /** Where one walking step takes the window: moved by the velocity of the
      held keys. */
  function WalkedTo(p: Point, k: Keys, v: int): Point
  {
    Add(p, Point(Velocity(k, v).0, Velocity(k, v).1))
  }

  /** A walking step moves the window by the speed along each axis of its
      walking direction (up and left are negative), and not at all when
      no movement key is effectively held. */
  lemma WalkedAlongDirection(p: Point, k: Keys, v: int)
    ensures var q, step := WalkedTo(p, k, v), Step(DirectionOf(k));
      q.x == p.x + step.1 * v && q.y == p.y + step.0 * v
    ensures !Moving(k) ==> WalkedTo(p, k, v) == p
  {
    VelocityFollowsDirection(k, v);
  }

  class GremlinWidget {
    var pos: Point
    var focused: bool

    /** False once close_app has replaced the key, click, enter and leave
        handlers by ones that do nothing. */
    var inputsPlugged: bool

    const walk: WalkManager

    constructor (walk: WalkManager, pos: Point)
      ensures this.walk == walk && this.pos == pos && !focused && inputsPlugged
    {
      this.walk := walk;
      this.pos := pos;
      focused := false;
      inputsPlugged := true;
    }

    method Move(p: Point)
      modifies this`pos
      ensures pos == p
    {
      pos := p;
    }

    method SetFocus()
      modifies this`focused
      ensures focused
    {
      focused := true;
    }

    method ClearFocus()
      modifies this`focused
      ensures !focused
    {
      focused := false;
    }

    method Unplug()
      modifies this`inputsPlugged
      ensures !inputsPlugged
    {
      inputsPlugged := false;
    }

    /** update_position_by_walking: moves by the walk manager's velocity;
        a zero velocity leaves the window where it is. */
    method UpdatePositionByWalking()
      modifies this`pos
      ensures pos == WalkedTo(old(pos), walk.View(), walk.v)
    {
      var dx, dy := walk.GetVelocity();
      if dx != 0 || dy != 0 {
        Move(Point(pos.x + dx, pos.y + dy));
      }
    }
  }
}
