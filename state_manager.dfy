/** The gremlin's current state, direction and ammunition, and the rules for
    moving between states. The pure functions describe one step on a
    `Machine` value; the `StateManager` class performs the same steps on its
    fields and on the shared registry. */
module StateMachine {

  import opened States
  import opened Resources
  import opened Sound
  import opened PyInt

  /** A full magazine for characters with a reload animation. */
  const MaxAmmo: int := 6

  /** Everything a transition reads or writes. `played` is the player's log. */
  datatype Machine = Machine(
    state: State,
    direction: Direction,
    ammo: int,
    anims: map<Key, AnimationData>,
    sounds: map<State, SoundData>,
    played: seq<string>)

  /** What holds between any two events. */
  ghost predicate Inv(m: Machine)
  {
    Populated(m.anims) && FramesInRange(m.anims) && 0 <= m.ammo <= MaxAmmo &&
    IsRegisteredKey((m.state, m.direction))
  }

  /** _reset_current_frame */
  function ResetFrame(anims: map<Key, AnimationData>, k: Key): (r: map<Key, AnimationData>)
    requires k in anims
    ensures r.Keys == anims.Keys
    ensures r[k].currentFrame == 0 && r[k].frameCount == anims[k].frameCount && r[k].spritePath == anims[k].spritePath
    ensures forall k' :: k' in anims && k' != k ==> r[k'] == anims[k']
  {
    anims[k := anims[k].(currentFrame := 0)]
  }

  predicate IsShooting(s: State)
  {
    s == LeftAction || s == RightAction
  }

  /** _is_spammable: a shooting state may be re-entered while there is ammo
      and its animation is past its first quarter. */
  function IsSpammable(state: State, ammo: int, anims: map<Key, AnimationData>): (spam: bool)
    requires IsShooting(state) ==> (state, None) in anims
    ensures spam ==> IsShooting(state) && ammo > 0
  {
    IsShooting(state) && ammo > 0 &&
    FloorDiv(anims[(state, None)].frameCount, 4) < anims[(state, None)].currentFrame
  }

  /** The ammo after entering a state (from _handle_entry_effect). */
  function EntryAmmo(state: State, ammo: int): (r: int)
    ensures 0 <= ammo <= MaxAmmo ==> 0 <= r <= MaxAmmo
    ensures state == Reload ==> r == MaxAmmo
    ensures IsShooting(state) ==> r == (if ammo > 0 then ammo - 1 else ammo)
    ensures state != Reload && !IsShooting(state) ==> r == ammo
  {
    match state
    case LeftAction | RightAction => if ammo > 0 then ammo - 1 else ammo
    case Reload => MaxAmmo
    case _ => ammo
  }

  /** The sound files one call to play(state) with no delay hands to the
      player. */
  function SoundFor(sounds: map<State, SoundData>, state: State): (r: seq<string>)
    ensures r == (if state in sounds then [sounds[state].soundPath] else [])
  {
    OptionToSeq(PlaySpec(sounds, state, 0, 0).played)
  }

  /** _handle_entry_effect */
  function EntryEffect(m: Machine, newState: State, playsound: bool): (r: Machine)
    ensures r.state == m.state && r.direction == m.direction && r.anims == m.anims
  {
    var sounds := if playsound then PlaySpec(m.sounds, newState, 0, 0).sounds else m.sounds;
    var played := if playsound then m.played + SoundFor(m.sounds, newState) else m.played;
    m.(ammo := EntryAmmo(newState, m.ammo), sounds := sounds, played := played)
  }

  /** The first part of transition_to: a change of direction resets the frame
      of (new_state, new_direction) and records the direction. */
  function DirectionStep(m: Machine, newState: State, newDirection: Direction): (r: Machine)
    requires (newState, newDirection) in m.anims
    ensures r.state == m.state && r.ammo == m.ammo && r.sounds == m.sounds && r.played == m.played
    ensures r.direction == newDirection && r.anims.Keys == m.anims.Keys
  {
    var anims := if m.direction != newDirection then ResetFrame(m.anims, (newState, newDirection)) else m.anims;
    m.(direction := newDirection, anims := anims)
  }

  /** Whether transition_to gets past its same-state guard. */
  predicate Accepts(m: Machine, newState: State, newDirection: Direction)
    requires Populated(m.anims) && (newState, newDirection) in m.anims
  {
    m.state != newState || IsSpammable(newState, m.ammo, DirectionStep(m, newState, newDirection).anims)
  }

  /** transition_to(new_state, new_direction, playsound) */
  function Transition(m: Machine, newState: State, newDirection: Direction, playsound: bool): (r: Machine)
    requires Populated(m.anims) && (newState, newDirection) in m.anims
    ensures r.state == newState && r.direction == newDirection
    ensures r.anims.Keys == m.anims.Keys && r.sounds == m.sounds
  {
    var m1 := DirectionStep(m, newState, newDirection);
    if m.state == newState && !IsSpammable(newState, m.ammo, m1.anims) then m1
    else
      var m2 := EntryEffect(m1, newState, playsound);
      m2.(anims := ResetFrame(m2.anims, (newState, newDirection)), state := newState)
  }

  /** What a transition changes. Only the (new_state, new_direction) entry
      of the registry can change, and it restarts whenever the direction
      changes. An accepted transition restarts that animation, applies the
      entry effect on ammo, and plays the new state's sound iff asked to. A
      refused one only records the direction. */
  lemma TransitionEffect(m: Machine, newState: State, newDirection: Direction, playsound: bool)
    requires Populated(m.anims) && (newState, newDirection) in m.anims
    ensures var r := Transition(m, newState, newDirection, playsound);
      (forall k :: k in m.anims && k != (newState, newDirection) ==> r.anims[k] == m.anims[k]) &&
      (m.direction != newDirection ==> r.anims[(newState, newDirection)].currentFrame == 0) &&
      (Accepts(m, newState, newDirection) ==>
        r.anims[(newState, newDirection)].currentFrame == 0 &&
        r.ammo == EntryAmmo(newState, m.ammo) &&
        r.played == m.played + (if playsound then SoundFor(m.sounds, newState) else [])) &&
      (!Accepts(m, newState, newDirection) ==>
        r == m.(direction := newDirection, anims := DirectionStep(m, newState, newDirection).anims))
  {
  }

  /** Every transition to a registered key keeps the invariant; in
      particular the ammo never leaves [0, 6]. */
  lemma TransitionKeepsInv(m: Machine, newState: State, newDirection: Direction, playsound: bool)
    requires Inv(m) && IsRegisteredKey((newState, newDirection))
    ensures Inv(Transition(m, newState, newDirection, playsound))
  {
    var r := Transition(m, newState, newDirection, playsound);
    TransitionEffect(m, newState, newDirection, playsound);
    forall k: Key | IsRegisteredKey(k) ensures k in r.anims {
      assert k in m.anims;
    }
    forall k | k in r.anims ensures FrameInRange(r.anims[k]) {
      if k != (newState, newDirection) {
        assert FrameInRange(m.anims[k]);
      }
    }
  }

  /** Asking for the current state and direction again, when that state is
      not spammable, changes nothing: no sound, no ammo, no frame reset. */
  lemma SameStateIsNoOp(m: Machine, playsound: bool)
    requires Populated(m.anims) && (m.state, m.direction) in m.anims
    requires !IsSpammable(m.state, m.ammo, m.anims)
    ensures Transition(m, m.state, m.direction, playsound) == m
  {
  }

  /** A direction change resets the new key's frame and records the
      direction even when the state change itself is refused. */
  lemma DirectionChangeAlwaysRecorded(m: Machine, newDirection: Direction, playsound: bool)
    requires Populated(m.anims) && (m.state, newDirection) in m.anims && m.direction != newDirection
    requires !IsShooting(m.state)
    ensures Transition(m, m.state, newDirection, playsound) ==
      m.(direction := newDirection, anims := ResetFrame(m.anims, (m.state, newDirection)))
  {
  }

  /** Re-entering a shooting state is accepted exactly when there is ammo
      and the animation has passed its first quarter; then one round is
      spent and the animation restarts. */
  lemma ShootingReentry(m: Machine, playsound: bool)
    requires Inv(m) && IsShooting(m.state)
    ensures Accepts(m, m.state, None) <==>
      m.ammo > 0 && FloorDiv(m.anims[(m.state, None)].frameCount, 4) < m.anims[(m.state, None)].currentFrame
    ensures Accepts(m, m.state, None) ==>
      var r := Transition(m, m.state, None, playsound);
      r.ammo == m.ammo - 1 && r.anims[(m.state, None)].currentFrame == 0
  {
    assert m.direction == None;
  }

  /** An accepted transition plays the new state's sound iff asked to (and
      the state has one), resets its frame and commits the state; a refused
      one plays nothing. */
  lemma SoundOnlyWhenAccepted(m: Machine, newState: State, newDirection: Direction, playsound: bool)
    requires Populated(m.anims) && (newState, newDirection) in m.anims
    ensures var r := Transition(m, newState, newDirection, playsound);
      r.played != m.played <==> Accepts(m, newState, newDirection) && playsound && newState in m.sounds
  {
  }

  /** to_idle_or_hover */
  function IdleOrHover(m: Machine, underMouse: bool): (r: Machine)
    requires Populated(m.anims)
    ensures r.state == (if underMouse then Hover else Idle) && r.direction == None
    ensures r.ammo == m.ammo && r.anims.Keys == m.anims.Keys && r.sounds == m.sounds
  {
    assert IsRegisteredKey((Hover, None)) && IsRegisteredKey((Idle, None));
    if underMouse then Transition(m, Hover, None, m.state == Idle || m.state == Sleep)
    else Transition(m, Idle, None, true)
  }

  /** Under the pointer the hover sound plays exactly when coming from IDLE
      or SLEEP; away from it the idle sound plays on every entry into IDLE. */
  lemma IdleOrHoverSound(m: Machine, underMouse: bool)
    requires Populated(m.anims)
    ensures underMouse ==> (IdleOrHover(m, true).played ==
      m.played + (if m.state == Idle || m.state == Sleep then SoundFor(m.sounds, Hover) else []))
    ensures !underMouse ==> (IdleOrHover(m, false).played ==
      m.played + (if m.state != Idle then SoundFor(m.sounds, Idle) else []))
  {
    assert IsRegisteredKey((Hover, None)) && IsRegisteredKey((Idle, None));
  }

  /** to_idle_or_hover keeps the invariant. */
  lemma IdleOrHoverKeepsInv(m: Machine, underMouse: bool)
    requires Inv(m)
    ensures Inv(IdleOrHover(m, underMouse))
  {
    if underMouse {
      TransitionKeepsInv(m, Hover, None, m.state == Idle || m.state == Sleep);
    } else {
      TransitionKeepsInv(m, Idle, None, true);
    }
  }

  /** _check_reload */
  function ReloadCheck(m: Machine, hasReload: bool, underMouse: bool): (r: Machine)
    requires Populated(m.anims)
    ensures r.state == (if hasReload && m.ammo == 0 then Reload else if underMouse then Hover else Idle)
  {
    assert IsRegisteredKey((Reload, None));
    if hasReload && m.ammo == 0 then Transition(m, Reload, None, true) else IdleOrHover(m, underMouse)
  }

  /** The outcome of on_completion: the new machine, and whether the program
      exits (sys.exit after OUTRO). */
  datatype Completion = Completion(machine: Machine, exit: bool)

  /** on_completion: the successor table of the animations. */
  function Completed(m: Machine, hasReload: bool, underMouse: bool): (c: Completion)
    requires Populated(m.anims)
    ensures c.exit <==> m.state == Outro
  {
    match m.state
    case Intro | Pat | Poke | Reload => Completion(IdleOrHover(m, underMouse), false)
    case LeftAction | RightAction => Completion(ReloadCheck(m, hasReload, underMouse), false)
    case Outro => Completion(m, true)
    case WalkIdle | Emote => Completion(IdleOrHover(m, underMouse), false)
    case _ => Completion(m, false)
  }

  /** The successor table, part 1: the looping states stay as they are and
      OUTRO exits without changing anything. */
  lemma CompletionOfLoops(m: Machine, hasReload: bool, underMouse: bool)
    requires Populated(m.anims) && (m.state in LoopAnimations || m.state == Outro)
    ensures Completed(m, hasReload, underMouse).machine == m
  {
  }

  /** Part 2: INTRO, PAT, POKE, RELOAD, WALK_IDLE and EMOTE go to
      idle-or-hover. */
  lemma CompletionToIdleOrHover(m: Machine, hasReload: bool, underMouse: bool)
    requires Populated(m.anims) && m.state in [Intro, Pat, Poke, Reload, WalkIdle, Emote]
    ensures Completed(m, hasReload, underMouse).machine == IdleOrHover(m, underMouse)
  {
  }

  /** Part 3: a shooting state reloads iff the character can and the
      magazine is empty, and otherwise goes to idle-or-hover. */
  lemma CompletionOfShooting(m: Machine, hasReload: bool, underMouse: bool)
    requires Populated(m.anims) && IsShooting(m.state)
    ensures (Reload, None) in m.anims
    ensures Completed(m, hasReload, underMouse).machine ==
      if hasReload && m.ammo == 0 then Transition(m, Reload, None, true) else IdleOrHover(m, underMouse)
  {
    assert IsRegisteredKey((Reload, None));
  }

  /** on_completion keeps the invariant. */
  lemma CompletedKeepsInv(m: Machine, hasReload: bool, underMouse: bool)
    requires Inv(m)
    ensures Inv(Completed(m, hasReload, underMouse).machine)
  {
    if m.state in LoopAnimations || m.state == Outro {
      CompletionOfLoops(m, hasReload, underMouse);
    } else if IsShooting(m.state) {
      CompletionOfShooting(m, hasReload, underMouse);
      if hasReload && m.ammo == 0 {
        TransitionKeepsInv(m, Reload, None, true);
      } else {
        IdleOrHoverKeepsInv(m, underMouse);
      }
    } else {
      CompletionToIdleOrHover(m, hasReload, underMouse);
      IdleOrHoverKeepsInv(m, underMouse);
    }
  }

  /** A character without a reload animation never gains ammo: starting at
      0, any transition other than into RELOAD leaves it at 0. */
  lemma NoReloadNoAmmo(m: Machine, newState: State, newDirection: Direction, playsound: bool)
    requires Populated(m.anims) && (newState, newDirection) in m.anims
    requires m.ammo == 0 && newState != Reload
    ensures Transition(m, newState, newDirection, playsound).ammo == 0
  {
  }

  /** A full magazine lasts six accepted shots; the next completion of a
      shooting animation reloads. */
  function Shots(ammo: int, n: nat): (r: int)
    decreases n
  {
    if n == 0 then ammo else Shots(EntryAmmo(LeftAction, ammo), n - 1)
  }

  lemma {:induction false} ShotsSpendOneEach(ammo: int, n: nat)
    requires 0 <= ammo
    ensures Shots(ammo, n) == Max(0, ammo - n)
    decreases n
  {
    if n > 0 {
      ShotsSpendOneEach(EntryAmmo(LeftAction, ammo), n - 1);
    }
  }

  /** One accepted transition_to into a shooting state, with the default
      playsound. */
  ghost predicate ShotStep(m: Machine, shot: State, next: Machine)
  {
    Populated(m.anims) && IsShooting(shot) && Accepts(m, shot, None) && next == Transition(m, shot, None, true)
  }

  /** Every accepted shot spends one round as Shots counts it. */
  lemma {:induction false} AcceptedShotsSpend(ms: seq<Machine>, shots: seq<State>)
    requires |ms| == |shots| + 1
    requires forall i :: 0 <= i < |shots| ==> ShotStep(ms[i], shots[i], ms[i + 1])
    ensures ms[|shots|].ammo == Shots(ms[0].ammo, |shots|)
    decreases |shots|
  {
    if |shots| > 0 {
      assert ShotStep(ms[0], shots[0], ms[1]);
      assert ms[1].ammo == EntryAmmo(LeftAction, ms[0].ammo);
      AcceptedShotsSpend(ms[1..], shots[1..]);
    }
  }

  /** An action that ends with the magazine empty reloads it. */
  lemma EmptyMagazineReloads(m: Machine, underMouse: bool)
    requires Populated(m.anims) && IsShooting(m.state) && m.ammo == 0
    ensures Completed(m, true, underMouse).machine.state == Reload
    ensures Completed(m, true, underMouse).machine.ammo == MaxAmmo
  {
    assert IsRegisteredKey((Reload, None));
  }

  /** Six accepted shots from a full magazine empty it, and the completion
      of the sixth action plays RELOAD and refills the magazine. */
  lemma MagazineCycle(ms: seq<Machine>, shots: seq<State>, underMouse: bool)
    requires |shots| == 6 && |ms| == 7 && ms[0].ammo == MaxAmmo
    requires forall i :: 0 <= i < 6 ==> ShotStep(ms[i], shots[i], ms[i + 1])
    ensures Populated(ms[6].anims) && IsShooting(ms[6].state) && ms[6].ammo == 0
    ensures Completed(ms[6], true, underMouse).machine.state == Reload
    ensures Completed(ms[6], true, underMouse).machine.ammo == MaxAmmo
  {
    AcceptedShotsSpend(ms, shots);
    ShotsSpendOneEach(MaxAmmo, 6);
    assert ShotStep(ms[5], shots[5], ms[6]);
    assert ms[6].anims.Keys == ms[5].anims.Keys;
    EmptyMagazineReloads(ms[6], underMouse);
  }

  class StateManager {
    var currentState: State
    var currentDirection: Direction
    var ammo: int

    /** Set where the source calls sys.exit(0). */
    var terminated: bool

    const hasReload: bool
    const sound: SoundEngine
    const reg: ResourceRegistry

    ghost function View(): Machine
      reads this, reg, sound
    {
      Machine(currentState, currentDirection, ammo, reg.animations, reg.sounds, sound.played)
    }

    ghost predicate Valid()
      reads this, reg, sound
    {
      sound.reg == reg && Inv(View())
    }

    /** Starts in IDLE with no direction, with a full magazine iff the
        character has a reload animation. */
    constructor (sound: SoundEngine, hasReload: bool)
      requires sound.reg.Valid()
      ensures this.sound == sound && reg == sound.reg && this.hasReload == hasReload
      ensures currentState == Idle && currentDirection == None && !terminated
      ensures ammo == (if hasReload then MaxAmmo else 0)
      ensures Valid()
    {
      currentState := Idle;
      currentDirection := None;
      this.sound := sound;
      reg := sound.reg;
      this.hasReload := hasReload;
      ammo := if hasReload then MaxAmmo else 0;
      terminated := false;
    }

    method ResetCurrentFrame(state: State, direction: Direction)
      requires (state, direction) in reg.animations
      modifies reg`animations
      ensures reg.animations == ResetFrame(old(reg.animations), (state, direction))
    {
      var data := reg.GetAnimation(state, direction);
      reg.animations := reg.animations[(state, direction) := data.value.(currentFrame := 0)];
    }

    method HandleEntryEffect(newState: State, playsound: bool)
      requires sound.reg == reg
      modifies this`ammo, reg`sounds, sound`played
      ensures View() == EntryEffect(old(View()), newState, playsound)
    {
      if playsound {
        // The clock is not read without a delay.
        sound.Play(newState, 0, 0);
      }
      match newState {
        case LeftAction | RightAction =>
          if ammo > 0 {
            ammo := ammo - 1;
          }
        case Reload =>
          ammo := MaxAmmo;
        case _ =>
      }
    }

    method TransitionTo(newState: State, newDirection: Direction := None, playsound: bool := true)
      requires Valid() && IsRegisteredKey((newState, newDirection))
      modifies this`currentState, this`currentDirection, this`ammo, reg`animations, reg`sounds, sound`played
      ensures Valid()
      ensures View() == Transition(old(View()), newState, newDirection, playsound)
    {
      ghost var m := View();
      if currentDirection != newDirection {
        ResetCurrentFrame(newState, newDirection);
      }
      currentDirection := newDirection;
      ghost var m1 := View();
      assert m1 == DirectionStep(m, newState, newDirection);
      if currentState != newState || IsSpammable(newState, ammo, reg.animations) {
        HandleEntryEffect(newState, playsound);
        ghost var m2 := View();
        assert m2 == EntryEffect(m1, newState, playsound);
        ResetCurrentFrame(newState, newDirection);
        currentState := newState;
        assert View() == m2.(anims := ResetFrame(m2.anims, (newState, newDirection)), state := newState);
      }
      assert View() == Transition(m, newState, newDirection, playsound);
      TransitionKeepsInv(m, newState, newDirection, playsound);
    }

    method ToIdleOrHover(underMouse: bool)
      requires Valid()
      modifies this`currentState, this`currentDirection, this`ammo, reg`animations, reg`sounds, sound`played
      ensures Valid()
      ensures View() == IdleOrHover(old(View()), underMouse)
    {
      if underMouse {
        var playsound := currentState == Idle || currentState == Sleep;
        TransitionTo(Hover, playsound := playsound);
      } else {
        TransitionTo(Idle);
      }
    }

    method CheckReload(underMouse: bool)
      requires Valid()
      modifies this`currentState, this`currentDirection, this`ammo, reg`animations, reg`sounds, sound`played
      ensures Valid()
      ensures View() == ReloadCheck(old(View()), hasReload, underMouse)
    {
      if hasReload && ammo == 0 {
        TransitionTo(Reload);
      } else {
        ToIdleOrHover(underMouse);
      }
    }

    method OnCompletion(underMouse: bool)
      requires Valid()
      modifies this`currentState, this`currentDirection, this`ammo, this`terminated,
        reg`animations, reg`sounds, sound`played
      ensures Valid()
      ensures View() == Completed(old(View()), hasReload, underMouse).machine
      ensures terminated == (old(terminated) || Completed(old(View()), hasReload, underMouse).exit)
    {
      match currentState {
        case Intro | Pat | Poke | Reload =>
          ToIdleOrHover(underMouse);
        case LeftAction | RightAction =>
          CheckReload(underMouse);
        case Outro =>
          terminated := true;
        case WalkIdle | Emote =>
          ToIdleOrHover(underMouse);
        case _ =>
      }
    }
  }
}
