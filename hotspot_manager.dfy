/** The three hotspots laid over the window: a right click on the top one
    pats the gremlin, on the left or right one fires the left or right
    action; a left click on any of them is handed to the window's own press
    handler. */
module Hotspots {

  import opened Wrappers
  import opened States
  import opened Resources
  import opened Settings
  import opened Qt
  import opened StateMachine
  import opened HotspotGeometry
  import opened Widgets
  import opened Mouse
  import Timers

  /** The states a hotspot may be triggered from: the resting states, and
      the two shooting states when the character can reload (so shots can
      be spammed). */
  function AllowedFrom(hasReload: bool): (r: seq<State>)
    ensures forall s :: s in r <==> s in [WalkIdle, Idle, Hover, Sleep] || (hasReload && IsShooting(s))
  {
    [WalkIdle, Idle, Hover, Sleep] + (if hasReload then [LeftAction, RightAction] else [])
  }

  datatype Spot = Top | LeftSide | RightSide

  /** The state each hotspot's click aliases ask for. */
  function SpotState(spot: Spot): (s: State)
    ensures s == Pat || IsShooting(s)
  {
    match spot
    case Top => Pat
    case LeftSide => LeftAction
    case RightSide => RightAction
  }

  /** The right-click half of _on_hotspot_click on a machine. */
  function RightClicked(m: Machine, hasReload: bool, target: State): (r: Machine)
    requires Populated(m.anims) && (target == Pat || IsShooting(target))
  {
    if m.state in AllowedFrom(hasReload) then
      assert IsRegisteredKey((target, None));
      Transition(m, target, None, true)
    else m
  }

  /** _on_hotspot_click on a machine: a left click goes to the window's
      press handler while that is still plugged in. */
  function HotspotClicked(m: Machine, hasReload: bool, plugged: bool, button: Option<MouseButton>, target: State): (r: Machine)
    requires Populated(m.anims) && (target == Pat || IsShooting(target))
  {
    if button == Some(RightButton) then RightClicked(m, hasReload, target)
    else if button == Some(LeftButton) && plugged then MousePressed(m, button)
    else m
  }

  /** Whether a click restarts the idle and emote timers. */
  predicate ClickRestartsTimers(s: State, hasReload: bool, plugged: bool, button: Option<MouseButton>)
  {
    (button == Some(RightButton) && s in AllowedFrom(hasReload)) ||
    (button == Some(LeftButton) && plugged && s in AllowedClickStates)
  }

  lemma HotspotClickKeepsInv(m: Machine, hasReload: bool, plugged: bool, button: Option<MouseButton>, target: State)
    requires Inv(m) && (target == Pat || IsShooting(target))
    ensures Inv(HotspotClicked(m, hasReload, plugged, button, target))
  {
    if button == Some(RightButton) {
      if m.state in AllowedFrom(hasReload) {
        assert IsRegisteredKey((target, None));
        TransitionKeepsInv(m, target, None, true);
      }
    } else {
      MouseHandlersKeepInv(m, button, false);
    }
  }

  /** Without a reload animation a shooting state ignores right clicks on
      every hotspot, so a shot cannot be interrupted. */
  lemma NoReloadNoSpam(m: Machine, target: State)
    requires Populated(m.anims) && IsShooting(m.state) && (target == Pat || IsShooting(target))
    ensures RightClicked(m, false, target) == m
  {
  }

  /** With a reload animation, right-clicking the hotspot of the shot in
      progress fires again exactly when there is ammo and the animation is
      past its first quarter; the new shot restarts the animation and
      spends one round. */
  lemma SpamWhileShooting(m: Machine)
    requires Inv(m) && IsShooting(m.state)
    ensures var r := RightClicked(m, true, m.state);
      var spam := m.ammo > 0 && PyInt.FloorDiv(m.anims[(m.state, None)].frameCount, 4) < m.anims[(m.state, None)].currentFrame;
      (spam ==> r.ammo == m.ammo - 1 && r.anims[(m.state, None)].currentFrame == 0) &&
      (!spam ==> r.state == m.state && r.ammo == m.ammo && r.played == m.played)
  {
    ShootingReentry(m, true);
    if !Accepts(m, m.state, None) {
      TransitionEffect(m, m.state, None, true);
    }
  }

  /** A left click on a hotspot does what a left press on the window does,
      until the window's handlers are unplugged; then it does nothing. */
  lemma LeftClickIsWindowPress(m: Machine, hasReload: bool, plugged: bool, target: State)
    requires Populated(m.anims) && (target == Pat || IsShooting(target))
    ensures HotspotClicked(m, hasReload, plugged, Some(LeftButton), target) ==
      if plugged then MousePressed(m, Some(LeftButton)) else m
  {
  }

  class HotspotManager {
    const sm: StateManager
    const tm: Timers.TimerManager
    const mouse: MouseManager
    const widget: GremlinWidget
    const allowedFrom: seq<State>

    /** The geometries of the top, left and right hotspots. */
    const top: Rect
    const left: Rect
    const right: Rect

    constructor (sm: StateManager, tm: Timers.TimerManager, mouse: MouseManager, widget: GremlinWidget,
                 sp: SpriteProperties, hs: HotspotSettings)
      ensures this.sm == sm && this.tm == tm && this.mouse == mouse && this.widget == widget
      ensures allowedFrom == AllowedFrom(sm.hasReload)
      ensures top == TopHotspot(sp, hs) && left == LeftHotspot(sp, hs) && right == RightHotspot(sp, hs)
    {
      this.sm := sm;
      this.tm := tm;
      this.mouse := mouse;
      this.widget := widget;
      allowedFrom := AllowedFrom(sm.hasReload);
      top := TopHotspot(sp, hs);
      left := LeftHotspot(sp, hs);
      right := RightHotspot(sp, hs);
    }

    ghost predicate Linked()
    {
      mouse.sm == sm && mouse.tm == tm && mouse.widget == widget && allowedFrom == AllowedFrom(sm.hasReload)
    }

    /** _on_hotspot_click */
    method OnHotspotClick(event: MouseEvent, state: State)
      requires Linked() && sm.Valid() && (state == Pat || IsShooting(state))
      modifies sm`currentState, sm`currentDirection, sm`ammo, sm.reg`animations, sm.reg`sounds, sm.sound`played
      modifies tm`idle, tm`emote, mouse`dragPos
      ensures sm.Valid()
      ensures sm.View() == HotspotClicked(old(sm.View()), sm.hasReload, widget.inputsPlugged, event.button, state)
      ensures ClickRestartsTimers(old(sm.currentState), sm.hasReload, widget.inputsPlugged, event.button) ==>
        tm.PassiveRestarted(old(tm.idle), old(tm.emote))
      ensures !ClickRestartsTimers(old(sm.currentState), sm.hasReload, widget.inputsPlugged, event.button) ==>
        tm.idle == old(tm.idle) && tm.emote == old(tm.emote)
      ensures mouse.dragPos == if event.button == Some(LeftButton) && widget.inputsPlugged &&
        old(sm.currentState) in AllowedClickStates then Sub(event.globalPos, widget.pos) else old(mouse.dragPos)
    {
      if event.button == Some(RightButton) {
        RightClick(state);
      } else if event.button == Some(LeftButton) {
        if widget.inputsPlugged {
          mouse.OnMousePress(event);
        }
      }
    }

    /** The right-click branch of _on_hotspot_click. */
    method RightClick(state: State)
      requires Linked() && sm.Valid() && (state == Pat || IsShooting(state))
      modifies sm`currentState, sm`currentDirection, sm`ammo, sm.reg`animations, sm.reg`sounds, sm.sound`played
      modifies tm`idle, tm`emote
      ensures sm.Valid()
      ensures sm.View() == RightClicked(old(sm.View()), sm.hasReload, state)
      ensures old(sm.currentState) in AllowedFrom(sm.hasReload) ==> tm.PassiveRestarted(old(tm.idle), old(tm.emote))
      ensures old(sm.currentState) !in AllowedFrom(sm.hasReload) ==> tm.idle == old(tm.idle) && tm.emote == old(tm.emote)
    {
      if sm.currentState in allowedFrom {
        sm.TransitionTo(state);
        tm.ResetPassiveTimer();
      }
    }

    /** _top_hotspot_click, _left_hotspot_click and _right_hotspot_click. */
    method OnSpotClick(spot: Spot, event: MouseEvent)
      requires Linked() && sm.Valid()
      modifies sm`currentState, sm`currentDirection, sm`ammo, sm.reg`animations, sm.reg`sounds, sm.sound`played
      modifies tm`idle, tm`emote, mouse`dragPos
      ensures sm.Valid()
      ensures sm.View() == HotspotClicked(old(sm.View()), sm.hasReload, widget.inputsPlugged, event.button, SpotState(spot))
      ensures ClickRestartsTimers(old(sm.currentState), sm.hasReload, widget.inputsPlugged, event.button) ==>
        tm.PassiveRestarted(old(tm.idle), old(tm.emote))
      ensures !ClickRestartsTimers(old(sm.currentState), sm.hasReload, widget.inputsPlugged, event.button) ==>
        tm.idle == old(tm.idle) && tm.emote == old(tm.emote)
      ensures mouse.dragPos == if event.button == Some(LeftButton) && widget.inputsPlugged &&
        old(sm.currentState) in AllowedClickStates then Sub(event.globalPos, widget.pos) else old(mouse.dragPos)
    {
      OnHotspotClick(event, SpotState(spot));
    }
  }
}
