/** The window's mouse handlers: a left press grabs the gremlin and drags the
    window, a right press pokes it, and releasing the left button ends the
    grab. */
module Mouse {

  import opened Wrappers
  import opened States
  import opened Resources
  import opened Qt
  import opened StateMachine
  import opened Widgets
  import Timers

  /** The states in which a press is noticed at all. */
  const AllowedClickStates: seq<State> := [WalkIdle, Idle, Hover, Sleep]

  /** on_mouse_press on a machine. */
  function MousePressed(m: Machine, button: Option<MouseButton>): (r: Machine)
    requires Populated(m.anims)
  {
    if m.state !in AllowedClickStates then m
    else if button == Some(LeftButton) then
      assert IsRegisteredKey((Grab, None));
      Transition(m, Grab, None, true)
    else if button == Some(RightButton) then
      assert IsRegisteredKey((Poke, None));
      Transition(m, Poke, None, true)
    else m
  }

  /** on_mouse_release on a machine: only a left release during a grab
      counts. */
  function MouseReleased(m: Machine, button: Option<MouseButton>, underMouse: bool): (r: Machine)
    requires Populated(m.anims)
  {
    if button == Some(LeftButton) && m.state == Grab then IdleOrHover(m, underMouse) else m
  }

  /** Both mouse handlers keep the machine's invariant. */
  lemma MouseHandlersKeepInv(m: Machine, button: Option<MouseButton>, underMouse: bool)
    requires Inv(m)
    ensures Inv(MousePressed(m, button)) && Inv(MouseReleased(m, button, underMouse))
  {
    if m.state in AllowedClickStates {
      if button == Some(LeftButton) {
        TransitionKeepsInv(m, Grab, None, true);
      } else if button == Some(RightButton) {
        TransitionKeepsInv(m, Poke, None, true);
      }
    }
    if button == Some(LeftButton) && m.state == Grab {
      IdleOrHoverKeepsInv(m, underMouse);
    }
  }

  /** A press from a resting state is never refused: a left press enters
      GRAB and a right press POKE, restarting that animation, keeping the
      ammo and playing the new state's sound. Presses in any other state,
      and presses of other buttons, change nothing. */
  lemma PressFromRest(m: Machine, button: Option<MouseButton>)
    requires Inv(m)
    ensures var r := MousePressed(m, button);
      var target := if button == Some(LeftButton) then Grab else Poke;
      if m.state in AllowedClickStates && (button == Some(LeftButton) || button == Some(RightButton)) then
        r.state == target && r.direction == None && r.ammo == m.ammo &&
        r.anims[(target, None)].currentFrame == 0 && r.played == m.played + SoundFor(m.sounds, target)
      else r == m
  {
    if m.state in AllowedClickStates && (button == Some(LeftButton) || button == Some(RightButton)) {
      var target := if button == Some(LeftButton) then Grab else Poke;
      assert IsRegisteredKey((target, None));
      TransitionEffect(m, target, None, true);
      assert Accepts(m, target, None);
    }
  }

  /** A left release ends a grab in HOVER under the pointer and IDLE
      elsewhere; nothing else is affected by a release. */
  lemma ReleaseEndsGrab(m: Machine, button: Option<MouseButton>, underMouse: bool)
    requires Populated(m.anims)
    ensures var r := MouseReleased(m, button, underMouse);
      (button == Some(LeftButton) && m.state == Grab ==>
        r.state == (if underMouse then Hover else Idle) && r.direction == None && r.ammo == m.ammo) &&
      (button != Some(LeftButton) || m.state != Grab ==> r == m)
  {
  }

  /** Where a drag puts the window: the cursor minus the grab offset. */
  function DraggedTo(cursor: Point, dragPos: Point): Point
  {
    Sub(cursor, dragPos)
  }

  /** Dragging keeps the grabbed pixel under the cursor: the first move
      from the press position leaves the window in place, and later moves
      shift it exactly by the cursor's displacement. */
  lemma DragKeepsGrabPoint(pressPos: Point, windowPos: Point, c1: Point, c2: Point)
    ensures var off := Sub(pressPos, windowPos);
      DraggedTo(pressPos, off) == windowPos &&
      Sub(c1, DraggedTo(c1, off)) == off &&
      DraggedTo(c2, off) == Add(DraggedTo(c1, off), Sub(c2, c1))
  {
  }

  class MouseManager {
    const sm: StateManager
    const tm: Timers.TimerManager
    const widget: GremlinWidget

    /** The cursor's offset from the window's corner when the grab began. */
    var dragPos: Point

    constructor (sm: StateManager, tm: Timers.TimerManager, widget: GremlinWidget)
      ensures this.sm == sm && this.tm == tm && this.widget == widget && dragPos == Point(0, 0)
    {
      this.sm := sm;
      this.tm := tm;
      this.widget := widget;
      dragPos := Point(0, 0);
    }

    /** on_mouse_press: ignored outside the resting states; otherwise the
        idle and emote timers restart, and a left press grabs (remembering
        the offset), a right press pokes. */
    method OnMousePress(event: MouseEvent)
      requires sm.Valid()
      modifies sm`currentState, sm`currentDirection, sm`ammo, sm.reg`animations, sm.reg`sounds, sm.sound`played
      modifies tm`idle, tm`emote, this`dragPos
      ensures sm.Valid()
      ensures sm.View() == MousePressed(old(sm.View()), event.button)
      ensures old(sm.currentState) in AllowedClickStates ==> tm.PassiveRestarted(old(tm.idle), old(tm.emote))
      ensures old(sm.currentState) !in AllowedClickStates ==> tm.idle == old(tm.idle) && tm.emote == old(tm.emote)
      ensures dragPos == if old(sm.currentState) in AllowedClickStates && event.button == Some(LeftButton)
        then Sub(event.globalPos, widget.pos) else old(dragPos)
    {
      if sm.currentState in AllowedClickStates {
        tm.ResetPassiveTimer();
        if event.button == Some(LeftButton) {
          sm.TransitionTo(Grab);
          dragPos := Sub(event.globalPos, widget.pos);
        } else if event.button == Some(RightButton) {
          sm.TransitionTo(Poke);
        }
      }
    }

    /** on_mouse_move: while grabbed with only the left button held, the
        window follows the cursor. */
    method OnMouseMove(event: MouseEvent)
      modifies widget`pos
      ensures widget.pos == if sm.currentState == Grab && event.buttons == {LeftButton}
        then DraggedTo(event.globalPos, dragPos) else old(widget.pos)
    {
      if sm.currentState == Grab && event.buttons == {LeftButton} {
        widget.Move(DraggedTo(event.globalPos, dragPos));
      }
    }

    /** on_mouse_release */
    method OnMouseRelease(event: MouseEvent, underMouse: bool)
      requires sm.Valid()
      modifies sm`currentState, sm`currentDirection, sm`ammo, sm.reg`animations, sm.reg`sounds, sm.sound`played
      ensures sm.Valid()
      ensures sm.View() == MouseReleased(old(sm.View()), event.button, underMouse)
    {
      if event.button == Some(LeftButton) && sm.currentState == Grab {
        sm.ToIdleOrHover(underMouse);
      }
    }
  }
}
