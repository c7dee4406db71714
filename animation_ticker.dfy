/** The master timer's callback: one frame of the current animation, the
    completion of the animations that end on their last frame, and one
    walking step while walking. */
module Ticker {

  import opened Wrappers
  import opened States
  import opened Resources
  import opened StateMachine
  import opened Frames
  import opened Widgets

  /** The machine after the current animation's counter moves one step. */
  function Stepped(m: Machine): (r: Machine)
    requires (m.state, m.direction) in m.anims
    ensures r.anims.Keys == m.anims.Keys
  {
    m.(anims := Advanced(m.anims, (m.state, m.direction)))
  }

  /** tick on a machine: the counter moves, and when it wraps to 0 on an
      animation that ends on its last frame, on_completion follows. */
  function Ticked(m: Machine, hasReload: bool, underMouse: bool): (c: Completion)
    requires Populated(m.anims) && (m.state, m.direction) in m.anims
  {
    var m1 := Stepped(m);
    if m1.anims[(m.state, m.direction)].currentFrame == 0 && m.state in EndByFrameAnimations then
      Completed(m1, hasReload, underMouse)
    else Completion(m1, false)
  }

  /** Moving the counter keeps the invariant. */
  lemma SteppedKeepsInv(m: Machine)
    requires Inv(m)
    ensures Inv(Stepped(m))
  {
    AdvancePreservesRange(m.anims, (m.state, m.direction));
  }

  lemma TickKeepsInv(m: Machine, hasReload: bool, underMouse: bool)
    requires Inv(m)
    ensures Inv(Ticked(m, hasReload, underMouse).machine)
  {
    SteppedKeepsInv(m);
    CompletedKeepsInv(Stepped(m), hasReload, underMouse);
  }

  /** Looping animations, and the ones a timer ends, never complete on a
      tick: only their frame counter moves. */
  lemma OnlyFramedAnimationsComplete(m: Machine, hasReload: bool, underMouse: bool)
    requires Populated(m.anims) && (m.state, m.direction) in m.anims && m.state !in EndByFrameAnimations
    ensures Ticked(m, hasReload, underMouse) == Completion(Stepped(m), false)
  {
  }

  /** The tick on the last frame of an animation that ends on its last
      frame completes it; on OUTRO that ends the program. */
  lemma LastFrameCompletes(m: Machine, hasReload: bool, underMouse: bool)
    requires Inv(m) && m.state in EndByFrameAnimations
    requires m.anims[(m.state, m.direction)].currentFrame + 1 >= m.anims[(m.state, m.direction)].frameCount
    ensures Ticked(m, hasReload, underMouse) == Completed(Stepped(m), hasReload, underMouse)
    ensures Ticked(m, hasReload, underMouse).exit <==> m.state == Outro
  {
  }

  /** Before its last frame, an animation keeps playing. */
  lemma EarlierFramesContinue(m: Machine, hasReload: bool, underMouse: bool)
    requires Inv(m)
    requires m.anims[(m.state, m.direction)].currentFrame + 1 < m.anims[(m.state, m.direction)].frameCount
    ensures Ticked(m, hasReload, underMouse) == Completion(Stepped(m), false)
    ensures Stepped(m).anims[(m.state, m.direction)].currentFrame == m.anims[(m.state, m.direction)].currentFrame + 1
  {
  }

  /** A tick never enters OUTRO and never leaves it. */
  lemma TickKeepsOutro(m: Machine, hasReload: bool, underMouse: bool)
    requires Inv(m)
    ensures Ticked(m, hasReload, underMouse).machine.state == Outro <==> m.state == Outro
  {
    var s := Stepped(m);
    if m.state in LoopAnimations || m.state == Outro {
      CompletionOfLoops(s, hasReload, underMouse);
    } else if IsShooting(m.state) {
      CompletionOfShooting(s, hasReload, underMouse);
    } else {
      CompletionToIdleOrHover(s, hasReload, underMouse);
    }
  }

  /** One step of a run of shots as the frame clock and the hotspot clicks
      interleave them: a tick that only moves the frame (Nothing), or an
      accepted shot (Some). */
  ghost predicate ShootingStep(m: Machine, event: Option<State>, next: Machine, hasReload: bool, underMouse: bool)
  {
    Populated(m.anims) && (m.state, m.direction) in m.anims &&
    match event
    case Nothing => next == Stepped(m) && Ticked(m, hasReload, underMouse).machine == next
    case Some(shot) => ShotStep(m, shot, next)
  }

  /** The number of shots in a run. */
  function ShotCount(events: seq<Option<State>>): nat
  {
    if |events| == 0 then 0 else (if events[0].Some? then 1 else 0) + ShotCount(events[1..])
  }

  /** A tick that only moves the frame keeps the ammo and the state; an
      accepted shot spends one round and enters an action. */
  lemma ShootingStepEffect(m: Machine, event: Option<State>, next: Machine, hasReload: bool, underMouse: bool)
    requires ShootingStep(m, event, next, hasReload, underMouse)
    ensures next.ammo == if event.Some? then EntryAmmo(LeftAction, m.ammo) else m.ammo
    ensures Populated(next.anims)
    ensures IsShooting(m.state) || event.Some? ==> IsShooting(next.state)
  {
    assert next.anims.Keys == m.anims.Keys;
  }

  /** Ticks between shots spend nothing and keep the state, so after a run
      the ammo is what Shots counts for its shots alone, and once a shot has
      been taken the state is an action. */
  lemma {:induction false} TicksBetweenShots(ms: seq<Machine>, events: seq<Option<State>>, hasReload: bool,
                                             underMouse: bool)
    requires |ms| == |events| + 1
    requires forall i :: 0 <= i < |events| ==> ShootingStep(ms[i], events[i], ms[i + 1], hasReload, underMouse)
    ensures ms[|events|].ammo == Shots(ms[0].ammo, ShotCount(events))
    ensures |events| > 0 ==> Populated(ms[|events|].anims)
    ensures IsShooting(ms[0].state) || ShotCount(events) > 0 ==> IsShooting(ms[|events|].state)
    decreases |events|
  {
    if |events| > 0 {
      ShootingStepEffect(ms[0], events[0], ms[1], hasReload, underMouse);
      TicksBetweenShots(ms[1..], events[1..], hasReload, underMouse);
    }
  }

  /** Six accepted shots from a full magazine, with any ticks between them
      that only move the frame, empty it; the action's completion then plays
      RELOAD and refills the magazine. */
  lemma SpamEmptiesMagazine(ms: seq<Machine>, events: seq<Option<State>>, underMouse: bool)
    requires |ms| == |events| + 1 && ms[0].ammo == MaxAmmo && ShotCount(events) == 6
    requires forall i :: 0 <= i < |events| ==> ShootingStep(ms[i], events[i], ms[i + 1], true, underMouse)
    ensures |events| > 0 && Populated(ms[|events|].anims) && IsShooting(ms[|events|].state)
    ensures ms[|events|].ammo == 0
    ensures Completed(ms[|events|], true, underMouse).machine.state == Reload
    ensures Completed(ms[|events|], true, underMouse).machine.ammo == MaxAmmo
  {
    TicksBetweenShots(ms, events, true, underMouse);
    ShotsSpendOneEach(MaxAmmo, 6);
    EmptyMagazineReloads(ms[|events|], underMouse);
  }

  class AnimationTicker {
    const sm: StateManager
    const fe: FrameEngine
    const widget: GremlinWidget

    constructor (sm: StateManager, fe: FrameEngine, widget: GremlinWidget)
      ensures this.sm == sm && this.fe == fe && this.widget == widget
    {
      this.sm := sm;
      this.fe := fe;
      this.widget := widget;
    }

    /** tick: the state and direction are read before the frame moves, so a
        completion that leaves WALK cannot happen and a walking tick always
        takes its step. */
    method Tick(underMouse: bool)
      requires sm.Valid() && fe.reg == sm.reg && fe.props.spriteColumn != 0
      modifies fe`shown, widget`pos
      modifies sm`currentState, sm`currentDirection, sm`ammo, sm`terminated,
        sm.reg`animations, sm.reg`sounds, sm.sound`played
      ensures sm.Valid()
      ensures sm.View() == Ticked(old(sm.View()), sm.hasReload, underMouse).machine
      ensures sm.terminated == (old(sm.terminated) || Ticked(old(sm.View()), sm.hasReload, underMouse).exit)
      ensures fe.shown == old(fe.shown) +
        [(old(sm.reg.animations[(sm.currentState, sm.currentDirection)]).spritePath,
          CellRect(old(sm.reg.animations[(sm.currentState, sm.currentDirection)]).currentFrame, fe.props))]
      ensures widget.pos == if old(sm.currentState) == Walk
        then WalkedTo(old(widget.pos), widget.walk.View(), widget.walk.v) else old(widget.pos)
    {
      ghost var m := sm.View();
      var curState := sm.currentState;
      var curDirec := sm.currentDirection;
      var endFrame := fe.Advance(curState, curDirec);
      SteppedKeepsInv(m);
      assert sm.View() == Stepped(m);
      if endFrame && curState in EndByFrameAnimations {
        sm.OnCompletion(underMouse);
      }
      if curState == Walk {
        widget.UpdatePositionByWalking();
      }
    }
  }
}
