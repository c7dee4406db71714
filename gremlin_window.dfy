/** The gremlin's window: it builds every component, routes Qt's events and
    timer timeouts to them, and on closing plays the outro and unplugs its
    input handlers. */
module Window {

  import opened Wrappers
  import opened States
  import opened Resources
  import opened Settings
  import opened Qt
  import opened Sound
  import opened Frames
  import opened Walking
  import opened StateMachine
  import opened Widgets
  import opened Ticker
  import opened Timers
  import opened Mouse
  import opened Hotspots
  import opened HotspotGeometry
  import opened Hover
  import opened Keyboard
  import opened Assembly

  /** No key press or release enters OUTRO. */
  lemma KeysNeverEnterOutro(m: Machine, k: Keys, key: int, emoteKey: Option<int>)
    requires Populated(m.anims) && m.state != Outro
    ensures KeyPressed(m, k, key, emoteKey).state != Outro && KeyReleased(m, k).state != Outro
  {
  }

  /** No mouse press or release on the window enters OUTRO. */
  lemma MouseNeverEntersOutro(m: Machine, button: Option<MouseButton>, underMouse: bool)
    requires Populated(m.anims) && m.state != Outro
    ensures MousePressed(m, button).state != Outro && MouseReleased(m, button, underMouse).state != Outro
  {
  }

  /** The pointer entering or leaving never enters OUTRO. */
  lemma HoverNeverEntersOutro(m: Machine)
    requires Populated(m.anims) && m.state != Outro
    ensures MouseEntered(m).state != Outro && MouseLeft(m).state != Outro
  {
  }

  /** No hotspot click enters OUTRO. */
  lemma HotspotNeverEntersOutro(m: Machine, hasReload: bool, plugged: bool, button: Option<MouseButton>, spot: Spot)
    requires Populated(m.anims) && m.state != Outro
    ensures HotspotClicked(m, hasReload, plugged, button, SpotState(spot)).state != Outro
  {
  }

  /** No passive timer enters OUTRO. */
  lemma TimersNeverEnterOutro(m: Machine, underMouse: bool)
    requires Populated(m.anims) && m.state != Outro
    ensures IdleTick(m).state != Outro && SleepTick(m).state != Outro && EmoteTick(m).state != Outro
    ensures WalkIdleTick(m, underMouse).state != Outro && EmoteDurTick(m, underMouse).state != Outro
  {
    assert Outro !in Timers.AllowedEmoteStates;
  }

  /** In OUTRO the handlers that stay bound after close_app (hotspot clicks,
      whose left clicks go to the unplugged press handler, and the timers)
      change nothing, and the frame clock only moves the outro's frames. */
  lemma OutroIgnoresWhatStaysBound(m: Machine, button: Option<MouseButton>, hasReload: bool, spot: Spot,
                                   underMouse: bool)
    requires Inv(m) && m.state == Outro
    ensures HotspotClicked(m, hasReload, false, button, SpotState(spot)) == m
    ensures IdleTick(m) == m && SleepTick(m) == m && EmoteTick(m) == m
    ensures WalkIdleTick(m, underMouse) == m && EmoteDurTick(m, underMouse) == m
    ensures Ticked(m, hasReload, underMouse).machine == Stepped(m)
  {
    TimersOnlyTouchRestingStates(m, underMouse);
    CompletionOfLoops(Stepped(m), hasReload, underMouse);
  }

  class GremlinWindow {
    const widget: GremlinWidget
    const reg: ResourceRegistry
    const fe: FrameEngine
    const sound: SoundEngine
    const walk: WalkManager
    const sm: StateManager
    const ticker: AnimationTicker
    const tm: TimerManager
    const mouse: MouseManager
    const hotspots: HotspotManager
    const hover: HoverManager
    const keyboard: KeyboardManager

    /** This window's components are wired together. */
    ghost predicate Wired()
    {
      Wiring(reg, fe, sound, walk, widget, sm, ticker, tm, mouse, hotspots, hover, keyboard)
    }

    /** The components are wired together, and the input handlers are
        plugged in exactly until the outro starts. */
    ghost predicate Valid()
      reads widget, sm, sm.reg, sm.sound
    {
      Wired() && sm.Valid() && (widget.inputsPlugged <==> sm.currentState != Outro)
    }

    /** __init__: the components are built in the source's order, then the
        intro plays and the passive timers start. */
    constructor (reg: ResourceRegistry, props: SpriteProperties, prefs: Preferences, emotePrefs: EmotePreferences,
                 hs: HotspotSettings, pos: Point)
      requires reg.Valid() && props.spriteColumn != 0 && props.frameRate != 0
      modifies reg`animations, reg`sounds
      ensures Valid()
      ensures sm.currentState == Intro && sm.currentDirection == None && widget.inputsPlugged && !sm.terminated
      ensures sm.ammo == (if reg.hasReload then MaxAmmo else 0)
      ensures tm.master == Started(Stopped, MasterInterval(props.frameRate))
      ensures tm.PassiveRestarted(Stopped, Stopped)
      ensures tm.sleep == Stopped && tm.walkIdle == Stopped.(singleShot := true) && tm.emoteDur == Stopped.(singleShot := true)
      ensures widget.pos == pos && walk.View() == NoKeys && !widget.focused
      ensures Configured(fe, walk, tm, keyboard, hotspots, props, prefs, emotePrefs, hs, reg.hasReload)
      ensures fe.shown == [] && mouse.dragPos == Point(0, 0)
    {
      var fe, sound, walk, widget, sm := NewCore(reg, props, prefs, pos);
      var ticker, tm, mouse, hotspots, hover, keyboard := NewHandlers(sm, fe, walk, widget, props, prefs, emotePrefs, hs);
      this.widget := widget;
      this.reg := reg;
      this.fe := fe;
      this.sound := sound;
      this.walk := walk;
      this.sm := sm;
      this.ticker := ticker;
      this.tm := tm;
      this.mouse := mouse;
      this.hotspots := hotspots;
      this.hover := hover;
      this.keyboard := keyboard;
      new;
      Start();
    }

    /** The last two steps of __init__: the intro plays and the passive
        timers start. */
    method Start()
      requires Wired() && sm.Valid() && widget.inputsPlugged && !sm.terminated && tm.frameRate != 0
      modifies sm`currentState, sm`currentDirection, sm`ammo, sm.reg`animations, sm.reg`sounds, sm.sound`played
      modifies tm`master, tm`idle, tm`emote
      ensures Valid()
      ensures sm.View() == Transition(old(sm.View()), Intro, None, true)
      ensures sm.currentState == Intro && sm.currentDirection == None && sm.ammo == old(sm.ammo)
      ensures widget.inputsPlugged && !sm.terminated
      ensures tm.master == Started(old(tm.master), MasterInterval(tm.frameRate))
      ensures tm.PassiveRestarted(old(tm.idle), old(tm.emote))
      ensures tm.sleep == old(tm.sleep) && tm.walkIdle == old(tm.walkIdle) && tm.emoteDur == old(tm.emoteDur)
      ensures fe.shown == old(fe.shown) && mouse.dragPos == old(mouse.dragPos) && widget.focused == old(widget.focused)
    {
      sm.TransitionTo(Intro);
      tm.StartPassiveTimer();
    }

    /** keyPressEvent: the keyboard manager's handler until close_app; after
        it (or on an auto-repeated key) nothing changes. */
    method KeyPressEvent(event: KeyEvent)
      requires Valid()
      modifies walk`w, walk`a, walk`s, walk`d
      modifies sm`currentState, sm`currentDirection, sm`ammo, sm.reg`animations, sm.reg`sounds, sm.sound`played
      modifies tm`idle, tm`emote, tm`emoteDur
      ensures Valid()
      ensures !(old(widget.inputsPlugged) && !event.isAutoRepeat) ==>
        walk.View() == old(walk.View()) && sm.View() == old(sm.View()) &&
        tm.idle == old(tm.idle) && tm.emote == old(tm.emote) && tm.emoteDur == old(tm.emoteDur)
      ensures old(widget.inputsPlugged) && !event.isAutoRepeat ==>
        walk.View() == Pressed(old(walk.View()), event.key) &&
        sm.View() == KeyPressed(old(sm.View()), walk.View(), event.key, keyboard.emoteKey)
      ensures old(widget.inputsPlugged) && !event.isAutoRepeat ==>
        var walks := StartsWalk(old(sm.currentState), walk.View());
        var emotes := !walks && StartsEmote(old(sm.currentState), event.key, keyboard.emoteKey);
        (walks || emotes ==> tm.PassiveRestarted(old(tm.idle), old(tm.emote))) &&
        (!walks && !emotes ==> tm.idle == old(tm.idle) && tm.emote == old(tm.emote)) &&
        tm.emoteDur == (if emotes then Started(old(tm.emoteDur), tm.emotePrefs.emoteDuration) else old(tm.emoteDur))
    {
      if widget.inputsPlugged {
        ghost var m := sm.View();
        keyboard.OnKeyPress(event);
        KeysNeverEnterOutro(m, walk.View(), event.key, keyboard.emoteKey);
      }
    }

    /** keyReleaseEvent */
    method KeyReleaseEvent(event: KeyEvent)
      requires Valid()
      modifies walk`w, walk`a, walk`s, walk`d
      modifies sm`currentState, sm`currentDirection, sm`ammo, sm.reg`animations, sm.reg`sounds, sm.sound`played
      modifies tm`walkIdle
      ensures Valid()
      ensures !(old(widget.inputsPlugged) && !event.isAutoRepeat) ==>
        walk.View() == old(walk.View()) && sm.View() == old(sm.View()) && tm.walkIdle == old(tm.walkIdle)
      ensures old(widget.inputsPlugged) && !event.isAutoRepeat ==>
        walk.View() == Released(old(walk.View()), event.key) &&
        sm.View() == KeyReleased(old(sm.View()), walk.View()) &&
        tm.walkIdle == if old(sm.currentState) == Walk && !Moving(walk.View())
          then Started(old(tm.walkIdle), Timers.WalkIdleTimeout) else old(tm.walkIdle)
    {
      if widget.inputsPlugged {
        ghost var m := sm.View();
        keyboard.OnKeyRelease(event);
        KeysNeverEnterOutro(m, walk.View(), 0, Nothing);
      }
    }

    /** mousePressEvent */
    method MousePressEvent(event: MouseEvent)
      requires Valid()
      modifies sm`currentState, sm`currentDirection, sm`ammo, sm.reg`animations, sm.reg`sounds, sm.sound`played
      modifies tm`idle, tm`emote, mouse`dragPos
      ensures Valid()
      ensures !old(widget.inputsPlugged) ==>
        sm.View() == old(sm.View()) && tm.idle == old(tm.idle) && tm.emote == old(tm.emote) &&
        mouse.dragPos == old(mouse.dragPos)
      ensures old(widget.inputsPlugged) ==> sm.View() == MousePressed(old(sm.View()), event.button)
      ensures old(widget.inputsPlugged) ==>
        (old(sm.currentState) in AllowedClickStates ==> tm.PassiveRestarted(old(tm.idle), old(tm.emote))) &&
        (old(sm.currentState) !in AllowedClickStates ==> tm.idle == old(tm.idle) && tm.emote == old(tm.emote)) &&
        mouse.dragPos == if old(sm.currentState) in AllowedClickStates && event.button == Some(LeftButton)
          then Sub(event.globalPos, widget.pos) else old(mouse.dragPos)
    {
      if widget.inputsPlugged {
        ghost var m := sm.View();
        mouse.OnMousePress(event);
        MouseNeverEntersOutro(m, event.button, false);
      }
    }

    /** mouseMoveEvent stays bound after close_app; outside a grab it does
        nothing. */
    method MouseMoveEvent(event: MouseEvent)
      requires Valid()
      modifies widget`pos
      ensures Valid()
      ensures widget.pos == if sm.currentState == Grab && event.buttons == {LeftButton}
        then DraggedTo(event.globalPos, mouse.dragPos) else old(widget.pos)
    {
      mouse.OnMouseMove(event);
    }

    /** mouseReleaseEvent */
    method MouseReleaseEvent(event: MouseEvent, underMouse: bool)
      requires Valid()
      modifies sm`currentState, sm`currentDirection, sm`ammo, sm.reg`animations, sm.reg`sounds, sm.sound`played
      ensures Valid()
      ensures sm.View() == if old(widget.inputsPlugged)
        then MouseReleased(old(sm.View()), event.button, underMouse) else old(sm.View())
    {
      if widget.inputsPlugged {
        ghost var m := sm.View();
        mouse.OnMouseRelease(event, underMouse);
        MouseNeverEntersOutro(m, event.button, underMouse);
      }
    }

    /** enterEvent */
    method EnterEvent()
      requires Valid()
      modifies widget`focused, tm`idle
      modifies sm`currentState, sm`currentDirection, sm`ammo, sm.reg`animations, sm.reg`sounds, sm.sound`played
      ensures Valid()
      ensures !old(widget.inputsPlugged) ==>
        widget.focused == old(widget.focused) && tm.idle == old(tm.idle) && sm.View() == old(sm.View())
      ensures old(widget.inputsPlugged) ==>
        widget.focused && tm.idle == Started(old(tm.idle), Mins2Ms(tm.prefs.idleMinutes)) &&
        sm.View() == MouseEntered(old(sm.View()))
    {
      if widget.inputsPlugged {
        ghost var m := sm.View();
        hover.OnMouseEnter();
        HoverNeverEntersOutro(m);
      }
    }

    /** leaveEvent: no timer is touched, even when WALK becomes WALK_IDLE. */
    method LeaveEvent()
      requires Valid()
      modifies widget`focused, walk`w, walk`a, walk`s, walk`d
      modifies sm`currentState, sm`currentDirection, sm`ammo, sm.reg`animations, sm.reg`sounds, sm.sound`played
      ensures Valid()
      ensures !old(widget.inputsPlugged) ==>
        widget.focused == old(widget.focused) && walk.View() == old(walk.View()) && sm.View() == old(sm.View())
      ensures old(widget.inputsPlugged) ==>
        !widget.focused && walk.View() == NoKeys && sm.View() == MouseLeft(old(sm.View()))
    {
      if widget.inputsPlugged {
        ghost var m := sm.View();
        hover.OnMouseLeave();
        HoverNeverEntersOutro(m);
      }
    }

    /** A press on one of the hotspots (their handlers stay bound). */
    method HotspotPressEvent(spot: Spot, event: MouseEvent)
      requires Valid()
      modifies sm`currentState, sm`currentDirection, sm`ammo, sm.reg`animations, sm.reg`sounds, sm.sound`played
      modifies tm`idle, tm`emote, mouse`dragPos
      ensures Valid()
      ensures sm.View() == HotspotClicked(old(sm.View()), sm.hasReload, widget.inputsPlugged, event.button, SpotState(spot))
      ensures ClickRestartsTimers(old(sm.currentState), sm.hasReload, widget.inputsPlugged, event.button) ==>
        tm.PassiveRestarted(old(tm.idle), old(tm.emote))
      ensures !ClickRestartsTimers(old(sm.currentState), sm.hasReload, widget.inputsPlugged, event.button) ==>
        tm.idle == old(tm.idle) && tm.emote == old(tm.emote)
      ensures mouse.dragPos == if event.button == Some(LeftButton) && widget.inputsPlugged &&
        old(sm.currentState) in AllowedClickStates then Sub(event.globalPos, widget.pos) else old(mouse.dragPos)
    {
      ghost var m := sm.View();
      hotspots.OnSpotClick(spot, event);
      if m.state == Outro {
        OutroIgnoresWhatStaysBound(m, event.button, sm.hasReload, spot, false);
      } else {
        HotspotNeverEntersOutro(m, sm.hasReload, widget.inputsPlugged, event.button, spot);
      }
    }

    /** The frame clock's timeout: one animation tick. */
    method FrameTimeout(underMouse: bool)
      requires Valid()
      modifies fe`shown, widget`pos
      modifies sm`currentState, sm`currentDirection, sm`ammo, sm`terminated,
        sm.reg`animations, sm.reg`sounds, sm.sound`played
      ensures Valid()
      ensures sm.View() == Ticked(old(sm.View()), sm.hasReload, underMouse).machine
      ensures sm.terminated == (old(sm.terminated) || Ticked(old(sm.View()), sm.hasReload, underMouse).exit)
      ensures fe.shown == old(fe.shown) +
        [(old(sm.reg.animations[(sm.currentState, sm.currentDirection)]).spritePath,
          CellRect(old(sm.reg.animations[(sm.currentState, sm.currentDirection)]).currentFrame, fe.props))]
      ensures widget.pos == if old(sm.currentState) == Walk
        then WalkedTo(old(widget.pos), walk.View(), walk.v) else old(widget.pos)
    {
      ghost var m := sm.View();
      ticker.Tick(underMouse);
      TickKeepsOutro(m, sm.hasReload, underMouse);
    }

    /** The idle, sleep, walk-idle, emote and emote-duration timeouts. */
    method IdleTimeout()
      requires Valid()
      modifies sm`currentState, sm`currentDirection, sm`ammo, sm.reg`animations, sm.reg`sounds, sm.sound`played
      modifies tm`sleep
      ensures Valid()
      ensures sm.View() == IdleTick(old(sm.View()))
      ensures tm.sleep == if old(sm.currentState) == Idle
        then Started(old(tm.sleep), Mins2Ms(tm.prefs.sleepMinutes)) else old(tm.sleep)
    {
      tm.TickIdleTimer();
    }

    method SleepTimeout()
      requires Valid()
      modifies sm`currentState, sm`currentDirection, sm`ammo, sm.reg`animations, sm.reg`sounds, sm.sound`played
      modifies tm`idle
      ensures Valid()
      ensures sm.View() == SleepTick(old(sm.View()))
      ensures tm.idle == if old(sm.currentState) == Sleep
        then Started(old(tm.idle), Mins2Ms(tm.prefs.idleMinutes)) else old(tm.idle)
    {
      tm.TickSleepTimer();
    }

    method WalkIdleTimeout(underMouse: bool)
      requires Valid()
      modifies sm`currentState, sm`currentDirection, sm`ammo, sm.reg`animations, sm.reg`sounds, sm.sound`played
      modifies tm`walkIdle
      ensures Valid()
      ensures sm.View() == WalkIdleTick(old(sm.View()), underMouse)
      ensures tm.walkIdle == old(tm.walkIdle).(running := false)
    {
      tm.TickWalkIdleTimer(underMouse);
    }

    method EmoteTimeout()
      requires Valid()
      modifies sm`currentState, sm`currentDirection, sm`ammo, sm.reg`animations, sm.reg`sounds, sm.sound`played
      modifies tm`emote, tm`emoteDur
      ensures Valid()
      ensures sm.View() == EmoteTick(old(sm.View()))
      ensures old(sm.currentState) in Timers.AllowedEmoteStates ==>
        tm.emoteDur == Started(old(tm.emoteDur), tm.emotePrefs.emoteDuration) && tm.emote == old(tm.emote)
      ensures old(sm.currentState) !in Timers.AllowedEmoteStates ==>
        tm.emoteDur == old(tm.emoteDur) && RestartedWithin(old(tm.emote), tm.emote, EmoteWindow(tm.emotePrefs))
    {
      ghost var m := sm.View();
      tm.TickEmoteTimer();
      if m.state != Outro {
        TimersNeverEnterOutro(m, false);
      }
    }

    method EmoteDurTimeout(underMouse: bool)
      requires Valid()
      modifies sm`currentState, sm`currentDirection, sm`ammo, sm.reg`animations, sm.reg`sounds, sm.sound`played
      modifies tm`idle, tm`emote, tm`emoteDur
      ensures Valid()
      ensures sm.View() == EmoteDurTick(old(sm.View()), underMouse)
      ensures tm.emoteDur == old(tm.emoteDur).(running := false)
      ensures old(sm.currentState) == Emote ==> tm.PassiveRestarted(old(tm.idle), old(tm.emote))
      ensures old(sm.currentState) != Emote ==> tm.idle == old(tm.idle) && tm.emote == old(tm.emote)
    {
      tm.TickEmoteDurTimer(underMouse);
    }

    /** close_app: the outro starts and the key, press, release, enter and
        leave handlers are replaced by ones that do nothing. */
    method CloseApp()
      requires Valid()
      modifies sm`currentState, sm`currentDirection, sm`ammo, sm.reg`animations, sm.reg`sounds, sm.sound`played
      modifies widget`inputsPlugged
      ensures Valid()
      ensures sm.View() == Transition(old(sm.View()), Outro, None, true)
      ensures sm.currentState == Outro && !widget.inputsPlugged
    {
      sm.TransitionTo(Outro);
      widget.Unplug();
    }

    /** closeEvent: the close request is refused and close_app runs
        instead, so the outro plays before the program exits. */
    method CloseEvent() returns (accepted: bool)
      requires Valid()
      modifies sm`currentState, sm`currentDirection, sm`ammo, sm.reg`animations, sm.reg`sounds, sm.sound`played
      modifies widget`inputsPlugged
      ensures Valid()
      ensures !accepted
      ensures sm.View() == Transition(old(sm.View()), Outro, None, true)
      ensures sm.currentState == Outro && !widget.inputsPlugged
    {
      accepted := false;
      CloseApp();
    }
  }
}
