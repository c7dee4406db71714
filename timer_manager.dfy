/** The six timers behind the gremlin's passive behaviour: the frame clock,
    falling asleep, waking up, standing still after a walk, and the random
    emote with its duration. A timer is a value; the manager's methods
    restart them and react to their ticks. */
module Timers {

  import opened States
  import opened Resources
  import opened Settings
  import opened StateMachine
  import opened PyInt

  /** A Qt timer: whether it runs, its interval in milliseconds, and whether
      it stops by itself after one timeout. */
  datatype Timer = Timer(running: bool, interval: int, singleShot: bool)

  const Stopped: Timer := Timer(false, 0, false)

  /** QTimer.start(ms): runs it with the given interval. */
  function Started(t: Timer, ms: int): (r: Timer)
    ensures r.running && r.interval == ms && r.singleShot == t.singleShot
  {
    t.(running := true, interval := ms)
  }

  function Mins2Ms(mins: int): int
  {
    mins * 60 * 1000
  }

  /** The states from which the emote timer starts an emote. */
  const AllowedEmoteStates: seq<State> := [WalkIdle, Idle, Hover, Sleep]

  /** How long the gremlin stands in WALK_IDLE before going back to idle. */
  const WalkIdleTimeout: int := 2000

  /** The frame clock's period, 1000 // frame_rate: the longest whole number
      of milliseconds that fits frame_rate times into a second. */
  function MasterInterval(frameRate: int): (ms: int)
    requires frameRate != 0
    ensures frameRate > 0 ==> ms * frameRate <= 1000 < (ms + 1) * frameRate
  {
    FloorDiv(1000, frameRate)
  }

  /** The bounds the emote delay is drawn from: the configured window
      widened so that it starts no earlier than ten seconds and is never
      empty. */
  function EmoteWindow(ep: EmotePreferences): (w: (int, int))
    ensures 10000 <= w.0 <= w.1
    ensures Mins2Ms(ep.minEmoteTriggerMinutes) <= w.0 && Mins2Ms(ep.maxEmoteTriggerMinutes) <= w.1
    ensures w.0 == 10000 || w.0 == Mins2Ms(ep.minEmoteTriggerMinutes)
    ensures w.1 == w.0 || w.1 == Mins2Ms(ep.maxEmoteTriggerMinutes)
  {
    var lo := Max(10000, Mins2Ms(ep.minEmoteTriggerMinutes));
    (lo, Max(lo, Mins2Ms(ep.maxEmoteTriggerMinutes)))
  }

  /** With the default preferences the emote fires between 5 and 15
      minutes. */
  lemma DefaultEmoteWindow()
    ensures EmoteWindow(DefaultEmotePreferences) == (300000, 900000)
  {
  }

  /** `after` is `before` restarted with some interval inside `w`. */
  predicate RestartedWithin(before: Timer, after: Timer, w: (int, int))
  {
    after == Started(before, after.interval) && w.0 <= after.interval <= w.1
  }

  /** tick_idle_timer: IDLE falls asleep. */
  function IdleTick(m: Machine): (r: Machine)
    requires Populated(m.anims)
    ensures m.state == Idle ==> r.state == Sleep
    ensures m.state != Idle ==> r == m
  {
    if m.state == Idle then Transition(m, Sleep, None, true) else m
  }

  /** tick_sleep_timer: SLEEP wakes up into IDLE. */
  function SleepTick(m: Machine): (r: Machine)
    requires Populated(m.anims)
    ensures m.state == Sleep ==> r.state == Idle
    ensures m.state != Sleep ==> r == m
  {
    if m.state == Sleep then Transition(m, Idle, None, true) else m
  }

  /** tick_walk_idle_timer: WALK_IDLE returns to idle or hover. */
  function WalkIdleTick(m: Machine, underMouse: bool): (r: Machine)
    requires Populated(m.anims)
    ensures m.state == WalkIdle ==> r.state == (if underMouse then Hover else Idle)
    ensures m.state != WalkIdle ==> r == m
  {
    if m.state == WalkIdle then IdleOrHover(m, underMouse) else m
  }

  /** tick_emote_timer: an emote starts from the resting states. */
  function EmoteTick(m: Machine): (r: Machine)
    requires Populated(m.anims)
    ensures m.state in AllowedEmoteStates ==> r.state == Emote
    ensures m.state !in AllowedEmoteStates ==> r == m
  {
    if m.state in AllowedEmoteStates then Transition(m, Emote, None, true) else m
  }

  /** tick_emote_dur_timer: the emote ends in idle or hover. */
  function EmoteDurTick(m: Machine, underMouse: bool): (r: Machine)
    requires Populated(m.anims)
    ensures m.state == Emote ==> r.state == (if underMouse then Hover else Idle)
    ensures m.state != Emote ==> r == m
  {
    if m.state == Emote then IdleOrHover(m, underMouse) else m
  }

  /** Every timer tick keeps the machine's invariant. */
  lemma TimerTicksKeepInv(m: Machine, underMouse: bool)
    requires Inv(m)
    ensures Inv(IdleTick(m)) && Inv(SleepTick(m)) && Inv(EmoteTick(m))
    ensures Inv(WalkIdleTick(m, underMouse)) && Inv(EmoteDurTick(m, underMouse))
  {
    if m.state == Idle {
      TransitionKeepsInv(m, Sleep, None, true);
    }
    if m.state == Sleep {
      TransitionKeepsInv(m, Idle, None, true);
    }
    if m.state in AllowedEmoteStates {
      TransitionKeepsInv(m, Emote, None, true);
    }
    if m.state == WalkIdle || m.state == Emote {
      IdleOrHoverKeepsInv(m, underMouse);
    }
  }

  /** No timer interrupts a walk, a grab, an action, the intro or the outro:
      outside the resting states and EMOTE every tick changes nothing. */
  lemma TimersOnlyTouchRestingStates(m: Machine, underMouse: bool)
    requires Populated(m.anims) && m.state !in AllowedEmoteStates && m.state != Emote
    ensures IdleTick(m) == m && SleepTick(m) == m && WalkIdleTick(m, underMouse) == m
    ensures EmoteTick(m) == m && EmoteDurTick(m, underMouse) == m
  {
  }

  /** Idle, then asleep, then awake again: the sleep sound plays on falling
      asleep and the idle sound on waking. */
  lemma SleepCycle(m: Machine)
    requires Populated(m.anims) && m.state == Idle
    ensures SleepTick(IdleTick(m)).state == Idle
    ensures SleepTick(IdleTick(m)).played == m.played + SoundFor(m.sounds, Sleep) + SoundFor(m.sounds, Idle)
  {
    assert IsRegisteredKey((Sleep, None)) && IsRegisteredKey((Idle, None));
    TransitionEffect(m, Sleep, None, true);
    var s := IdleTick(m);
    TransitionEffect(s, Idle, None, true);
  }

  /** An emote started by its timer is ended by its duration timer, in
      hover or idle. */
  lemma EmoteEnds(m: Machine, underMouse: bool)
    requires Populated(m.anims) && m.state in AllowedEmoteStates
    ensures EmoteDurTick(EmoteTick(m), underMouse).state == (if underMouse then Hover else Idle)
  {
    assert IsRegisteredKey((Emote, None));
  }

  class TimerManager {
    var master: Timer
    var idle: Timer
    var sleep: Timer
    var walkIdle: Timer
    var emote: Timer
    var emoteDur: Timer

    const sm: StateManager
    const prefs: Preferences
    const emotePrefs: EmotePreferences
    const frameRate: int

    /** The idle timer and the emote timer have been restarted since they
        were `idle0` and `emote0` (reset_passive_timer). */
    ghost predicate PassiveRestarted(idle0: Timer, emote0: Timer)
      reads this
    {
      idle == Started(idle0, Mins2Ms(prefs.idleMinutes)) && RestartedWithin(emote0, emote, EmoteWindow(emotePrefs))
    }

    /** All six timers stopped; the walk-idle and emote-duration timers
        are single-shot. */
    constructor (sm: StateManager, prefs: Preferences, emotePrefs: EmotePreferences, frameRate: int)
      ensures this.sm == sm && this.prefs == prefs && this.emotePrefs == emotePrefs && this.frameRate == frameRate
      ensures master == Stopped && idle == Stopped && sleep == Stopped && emote == Stopped
      ensures walkIdle == Stopped.(singleShot := true) && emoteDur == Stopped.(singleShot := true)
    {
      this.sm := sm;
      this.prefs := prefs;
      this.emotePrefs := emotePrefs;
      this.frameRate := frameRate;
      master, idle, sleep, emote := Stopped, Stopped, Stopped, Stopped;
      walkIdle := Stopped.(singleShot := true);
      emoteDur := Stopped.(singleShot := true);
    }

    /** start_passive_timer: the frame clock runs at the frame rate and the
        idle and emote timers restart. The frame rate must not be 0, since
        the source divides by it. */
    method StartPassiveTimer()
      requires frameRate != 0
      modifies this`master, this`idle, this`emote
      ensures master == Started(old(master), MasterInterval(frameRate))
      ensures PassiveRestarted(old(idle), old(emote))
    {
      master := Started(master, FloorDiv(1000, frameRate));
      ResetPassiveTimer();
    }

    /** reset_passive_timer */
    method ResetPassiveTimer()
      modifies this`idle, this`emote
      ensures PassiveRestarted(old(idle), old(emote))
    {
      ResetIdleTimer();
      ResetEmoteTimer();
    }

    method ResetIdleTimer()
      modifies this`idle
      ensures idle == Started(old(idle), Mins2Ms(prefs.idleMinutes))
    {
      var timeout := Mins2Ms(prefs.idleMinutes);
      idle := Started(idle, timeout);
    }

    method ResetSleepTimer()
      modifies this`sleep
      ensures sleep == Started(old(sleep), Mins2Ms(prefs.sleepMinutes))
    {
      var timeout := Mins2Ms(prefs.sleepMinutes);
      sleep := Started(sleep, timeout);
    }

    method ResetWalkIdleTimer()
      modifies this`walkIdle
      ensures walkIdle == Started(old(walkIdle), WalkIdleTimeout)
    {
      walkIdle := Started(walkIdle, WalkIdleTimeout);
    }

    /** reset_emote_timer: the delay is drawn at random from the emote
        window; any value in it may be chosen. */
    method ResetEmoteTimer()
      modifies this`emote
      ensures RestartedWithin(old(emote), emote, EmoteWindow(emotePrefs))
    {
      var minMs := Mins2Ms(emotePrefs.minEmoteTriggerMinutes);
      var maxMs := Mins2Ms(emotePrefs.maxEmoteTriggerMinutes);
      minMs := Max(10000, minMs);
      maxMs := Max(minMs, maxMs);
      assert minMs <= minMs <= maxMs;
      var timeout :| minMs <= timeout <= maxMs;
      emote := Started(emote, timeout);
    }

    method ResetEmoteDurTimer()
      modifies this`emoteDur
      ensures emoteDur == Started(old(emoteDur), emotePrefs.emoteDuration)
    {
      emoteDur := Started(emoteDur, emotePrefs.emoteDuration);
    }

    method TickIdleTimer()
      requires sm.Valid()
      modifies sm`currentState, sm`currentDirection, sm`ammo, sm.reg`animations, sm.reg`sounds, sm.sound`played
      modifies this`sleep
      ensures sm.Valid()
      ensures sm.View() == IdleTick(old(sm.View()))
      ensures sleep == if old(sm.currentState) == Idle then Started(old(sleep), Mins2Ms(prefs.sleepMinutes)) else old(sleep)
    {
      if sm.currentState == Idle {
        sm.TransitionTo(Sleep);
        ResetSleepTimer();
      }
    }

    method TickSleepTimer()
      requires sm.Valid()
      modifies sm`currentState, sm`currentDirection, sm`ammo, sm.reg`animations, sm.reg`sounds, sm.sound`played
      modifies this`idle
      ensures sm.Valid()
      ensures sm.View() == SleepTick(old(sm.View()))
      ensures idle == if old(sm.currentState) == Sleep then Started(old(idle), Mins2Ms(prefs.idleMinutes)) else old(idle)
    {
      if sm.currentState == Sleep {
        sm.TransitionTo(Idle);
        ResetIdleTimer();
      }
    }

    /** The walk-idle timer is single-shot, so it has stopped when it ticks. */
    method TickWalkIdleTimer(underMouse: bool)
      requires sm.Valid()
      modifies sm`currentState, sm`currentDirection, sm`ammo, sm.reg`animations, sm.reg`sounds, sm.sound`played
      modifies this`walkIdle
      ensures sm.Valid()
      ensures sm.View() == WalkIdleTick(old(sm.View()), underMouse)
      ensures walkIdle == old(walkIdle).(running := false)
    {
      walkIdle := walkIdle.(running := false);
      if sm.currentState == WalkIdle {
        sm.ToIdleOrHover(underMouse);
      }
    }

    /** From a resting state the emote starts and its duration timer runs;
        otherwise the emote timer only draws a new delay. */
    method TickEmoteTimer()
      requires sm.Valid()
      modifies sm`currentState, sm`currentDirection, sm`ammo, sm.reg`animations, sm.reg`sounds, sm.sound`played
      modifies this`emote, this`emoteDur
      ensures sm.Valid()
      ensures sm.View() == EmoteTick(old(sm.View()))
      ensures old(sm.currentState) in AllowedEmoteStates ==>
        emoteDur == Started(old(emoteDur), emotePrefs.emoteDuration) && emote == old(emote)
      ensures old(sm.currentState) !in AllowedEmoteStates ==>
        emoteDur == old(emoteDur) && RestartedWithin(old(emote), emote, EmoteWindow(emotePrefs))
    {
      if sm.currentState in AllowedEmoteStates {
        sm.TransitionTo(Emote);
        ResetEmoteDurTimer();
      } else {
        ResetEmoteTimer();
      }
    }

    /** The emote-duration timer is single-shot, so it has stopped when it
        ticks. */
    method TickEmoteDurTimer(underMouse: bool)
      requires sm.Valid()
      modifies sm`currentState, sm`currentDirection, sm`ammo, sm.reg`animations, sm.reg`sounds, sm.sound`played
      modifies this`emoteDur, this`idle, this`emote
      ensures sm.Valid()
      ensures sm.View() == EmoteDurTick(old(sm.View()), underMouse)
      ensures emoteDur == old(emoteDur).(running := false)
      ensures old(sm.currentState) == Emote ==> PassiveRestarted(old(idle), old(emote))
      ensures old(sm.currentState) != Emote ==> idle == old(idle) && emote == old(emote)
    {
      emoteDur := emoteDur.(running := false);
      if sm.currentState == Emote {
        sm.ToIdleOrHover(underMouse);
        ResetPassiveTimer();
      }
    }
  }
}
