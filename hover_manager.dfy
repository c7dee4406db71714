/** The window's enter and leave handlers: the pointer arriving wakes IDLE
    into HOVER (a sleeping gremlin is left asleep), the pointer leaving stops
    a walk and ends a hover. */
module Hover {

  import opened States
  import opened Resources
  import opened StateMachine
  import opened Walking
  import opened Widgets
  import Timers

  /** on_mouse_enter on a machine. */
  function MouseEntered(m: Machine): (r: Machine)
    requires Populated(m.anims)
  {
    if m.state == Idle then
      assert IsRegisteredKey((Hover, None));
      Transition(m, Hover, None, true)
    else m
  }

  /** on_mouse_leave on a machine. */
  function MouseLeft(m: Machine): (r: Machine)
    requires Populated(m.anims)
  {
    match m.state
    case Walk =>
      assert IsRegisteredKey((WalkIdle, None));
      Transition(m, WalkIdle, None, true)
    case Hover =>
      assert IsRegisteredKey((Idle, None));
      Transition(m, Idle, None, true)
    case _ => m
  }

  /** Both handlers keep the machine's invariant. */
  lemma HoverHandlersKeepInv(m: Machine)
    requires Inv(m)
    ensures Inv(MouseEntered(m)) && Inv(MouseLeft(m))
  {
    if m.state == Idle {
      TransitionKeepsInv(m, Hover, None, true);
    }
    if m.state == Walk {
      TransitionKeepsInv(m, WalkIdle, None, true);
    } else if m.state == Hover {
      TransitionKeepsInv(m, Idle, None, true);
    }
  }

  /** Entering only ever changes IDLE, into HOVER with its sound; a
      sleeping gremlin, and every other state, is left as it was. */
  lemma EnterWakesOnlyIdle(m: Machine)
    requires Inv(m)
    ensures m.state == Idle ==>
      MouseEntered(m).state == Hover && MouseEntered(m).played == m.played + SoundFor(m.sounds, Hover)
    ensures m.state != Idle ==> MouseEntered(m) == m
  {
    if m.state == Idle {
      assert IsRegisteredKey((Hover, None));
      TransitionEffect(m, Hover, None, true);
      assert Accepts(m, Hover, None);
    }
  }

  /** Leaving ends a walk in WALK_IDLE and a hover in IDLE, and leaves every
      other state (WALK_IDLE included) to its timers. */
  lemma LeaveEndsWalkAndHover(m: Machine)
    requires Populated(m.anims)
    ensures MouseLeft(m).state == (if m.state == Walk then WalkIdle else if m.state == Hover then Idle else m.state)
    ensures m.state != Walk && m.state != Hover ==> MouseLeft(m) == m
  {
  }

  /** The pointer passing over an idle gremlin and away again brings it back
      to IDLE with no direction, having played the hover sound and then the
      idle one. */
  lemma PassingOverIdle(m: Machine)
    requires Inv(m) && m.state == Idle
    ensures var r := MouseLeft(MouseEntered(m));
      r.state == Idle && r.direction == None && r.ammo == m.ammo &&
      r.played == m.played + SoundFor(m.sounds, Hover) + SoundFor(m.sounds, Idle)
  {
    EnterWakesOnlyIdle(m);
    var h := MouseEntered(m);
    HoverHandlersKeepInv(m);
    assert IsRegisteredKey((Idle, None));
    TransitionEffect(h, Idle, None, true);
    assert Accepts(h, Idle, None);
  }

  class HoverManager {
    const walk: WalkManager
    const sm: StateManager
    const tm: Timers.TimerManager
    const widget: GremlinWidget

    constructor (walk: WalkManager, sm: StateManager, tm: Timers.TimerManager, widget: GremlinWidget)
      ensures this.walk == walk && this.sm == sm && this.tm == tm && this.widget == widget
    {
      this.walk := walk;
      this.sm := sm;
      this.tm := tm;
      this.widget := widget;
    }

    /** on_mouse_enter: takes the focus and restarts the idle timer. */
    method OnMouseEnter()
      requires sm.Valid()
      modifies widget`focused, tm`idle
      modifies sm`currentState, sm`currentDirection, sm`ammo, sm.reg`animations, sm.reg`sounds, sm.sound`played
      ensures sm.Valid()
      ensures widget.focused
      ensures tm.idle == Timers.Started(old(tm.idle), Timers.Mins2Ms(tm.prefs.idleMinutes))
      ensures sm.View() == MouseEntered(old(sm.View()))
    {
      widget.SetFocus();
      tm.ResetIdleTimer();
      if sm.currentState == Idle {
        sm.TransitionTo(Hover);
      }
    }

    /** on_mouse_leave: drops the focus and forgets every held movement
        key. */
    method OnMouseLeave()
      requires sm.Valid()
      modifies widget`focused, walk`w, walk`a, walk`s, walk`d
      modifies sm`currentState, sm`currentDirection, sm`ammo, sm.reg`animations, sm.reg`sounds, sm.sound`played
      ensures sm.Valid()
      ensures !widget.focused
      ensures walk.View() == NoKeys
      ensures sm.View() == MouseLeft(old(sm.View()))
    {
      widget.ClearFocus();
      walk.RecordMouseLeave();
      if sm.currentState == Walk {
        sm.TransitionTo(WalkIdle);
      } else if sm.currentState == Hover {
        sm.TransitionTo(Idle);
      }
    }
  }
}
