/** How the window's __init__ assembles its components: which objects are
    built, how they are shared, and the two steps that start the gremlin. */
module Assembly {

  import opened States
  import opened Resources
  import opened Settings
  import opened Qt
  import opened Sound
  import opened Frames
  import opened Walking
  import opened StateMachine
  import opened Widgets
  import opened Ticker
  import opened Timers
  import opened Mouse
  import opened Hotspots
  import opened HotspotGeometry
  import opened Hover
  import opened Keyboard

  /** The engines, the widget and the state manager share one registry,
      sound engine and walk manager. */
  ghost predicate CoreWired(reg: ResourceRegistry, fe: FrameEngine, sound: SoundEngine, walk: WalkManager,
                            widget: GremlinWidget, sm: StateManager)
  {
    widget.walk == walk && fe.reg == reg && fe.props.spriteColumn != 0 && sm.reg == reg && sm.sound == sound
  }

  /** The ticker, the timers and the input handlers share one state
      manager, timer manager, walk manager and widget. */
  ghost predicate HandlersWired(fe: FrameEngine, walk: WalkManager, widget: GremlinWidget, sm: StateManager,
                                ticker: AnimationTicker, tm: TimerManager, mouse: MouseManager,
                                hotspots: HotspotManager, hover: HoverManager, keyboard: KeyboardManager)
  {
    ticker.sm == sm && ticker.fe == fe && ticker.widget == widget &&
    tm.sm == sm && mouse.sm == sm && mouse.tm == tm && mouse.widget == widget &&
    hotspots.sm == sm && hotspots.tm == tm && hotspots.mouse == mouse && hotspots.widget == widget &&
    hotspots.Linked() &&
    hover.walk == walk && hover.sm == sm && hover.tm == tm && hover.widget == widget &&
    keyboard.sm == sm && keyboard.walk == walk && keyboard.tm == tm
  }

  /** All the components are wired together. */
  ghost predicate Wiring(reg: ResourceRegistry, fe: FrameEngine, sound: SoundEngine, walk: WalkManager,
                         widget: GremlinWidget, sm: StateManager, ticker: AnimationTicker, tm: TimerManager,
                         mouse: MouseManager, hotspots: HotspotManager, hover: HoverManager, keyboard: KeyboardManager)
  {
    CoreWired(reg, fe, sound, walk, widget, sm) &&
    HandlersWired(fe, walk, widget, sm, ticker, tm, mouse, hotspots, hover, keyboard)
  }

  /** The frame engine and the walk manager hold the sprite properties and
      the speed they were built from. */
  ghost predicate CoreConfigured(fe: FrameEngine, walk: WalkManager, props: SpriteProperties, prefs: Preferences)
  {
    fe.props == props && walk.v == prefs.moveSpeed
  }

  /** The timers hold the preferences, the keyboard manager the resolved
      emote key, and the hotspot manager its source states and the three
      rectangles computed from the sprite properties. */
  ghost predicate HandlersConfigured(tm: TimerManager, keyboard: KeyboardManager, hotspots: HotspotManager,
                                     props: SpriteProperties, prefs: Preferences, emotePrefs: EmotePreferences,
                                     hs: HotspotSettings, hasReload: bool)
  {
    tm.prefs == prefs && tm.emotePrefs == emotePrefs &&
    keyboard.emoteKey == ResolveEmoteKey(prefs.emoteKeyEnabled, prefs.emoteKey) &&
    hotspots.allowedFrom == AllowedFrom(hasReload) &&
    hotspots.top == TopHotspot(props, hs) && hotspots.left == LeftHotspot(props, hs) &&
    hotspots.right == RightHotspot(props, hs)
  }

  /** The components hold the settings they were built from. */
  ghost predicate Configured(fe: FrameEngine, walk: WalkManager, tm: TimerManager, keyboard: KeyboardManager,
                             hotspots: HotspotManager, props: SpriteProperties, prefs: Preferences,
                             emotePrefs: EmotePreferences, hs: HotspotSettings, hasReload: bool)
  {
    CoreConfigured(fe, walk, props, prefs) &&
    HandlersConfigured(tm, keyboard, hotspots, props, prefs, emotePrefs, hs, hasReload)
  }

  /** The first half of __init__'s components: the engines, the walk
      manager, the widget and the state manager. */
  method NewCore(reg: ResourceRegistry, props: SpriteProperties, prefs: Preferences, pos: Point)
    returns (fe: FrameEngine, sound: SoundEngine, walk: WalkManager, widget: GremlinWidget, sm: StateManager)
    requires reg.Valid()
    ensures fresh(fe) && fresh(sound) && fresh(walk) && fresh(widget) && fresh(sm)
    ensures props.spriteColumn != 0 ==> CoreWired(reg, fe, sound, walk, widget, sm)
    ensures widget.pos == pos && widget.inputsPlugged && walk.View() == NoKeys
    ensures sm.hasReload == reg.hasReload && sm.Valid()
    ensures CoreConfigured(fe, walk, props, prefs) && fe.shown == [] && sound.played == [] && !widget.focused
    ensures sm.currentState == Idle && !sm.terminated && sm.ammo == (if reg.hasReload then MaxAmmo else 0)
  {
    fe := new FrameEngine(reg, props);
    sound := new SoundEngine(reg);
    walk := new WalkManager(prefs.moveSpeed);
    widget := new GremlinWidget(walk, pos);
    sm := new StateManager(sound, reg.hasReload);
  }

  /** The second half: the ticker, the timers and the input handlers, all
      sharing the first half's components. */
  method NewHandlers(sm: StateManager, fe: FrameEngine, walk: WalkManager, widget: GremlinWidget,
                     props: SpriteProperties, prefs: Preferences, emotePrefs: EmotePreferences, hs: HotspotSettings)
    returns (ticker: AnimationTicker, tm: TimerManager, mouse: MouseManager, hotspots: HotspotManager,
             hover: HoverManager, keyboard: KeyboardManager)
    ensures fresh(tm)
    ensures HandlersWired(fe, walk, widget, sm, ticker, tm, mouse, hotspots, hover, keyboard)
    ensures tm.frameRate == props.frameRate
    ensures tm.master == Stopped && tm.idle == Stopped && tm.sleep == Stopped && tm.emote == Stopped
    ensures tm.walkIdle == Stopped.(singleShot := true) && tm.emoteDur == Stopped.(singleShot := true)
    ensures HandlersConfigured(tm, keyboard, hotspots, props, prefs, emotePrefs, hs, sm.hasReload)
    ensures mouse.dragPos == Point(0, 0)
  {
    ticker := new AnimationTicker(sm, fe, widget);
    tm := new TimerManager(sm, prefs, emotePrefs, props.frameRate);
    mouse := new MouseManager(sm, tm, widget);
    hotspots := new HotspotManager(sm, tm, mouse, widget, props, hs);
    hover := new HoverManager(walk, sm, tm, widget);
    keyboard := new KeyboardManager(sm, walk, tm, prefs.emoteKeyEnabled, prefs.emoteKey);
  }
}
