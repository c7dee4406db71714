/** The sprite description, the per-animation frame counters and the per-state
    sounds, and the registry that maps states to them. */
module Resources {

  import opened States
  import opened Wrappers

  /** The character's sprite description; the defaults are the class-level
      initial values, which the configuration loader overwrites. */
  datatype SpriteProperties = SpriteProperties(
    frameRate: int,
    spriteColumn: int,
    frameHeight: int,
    frameWidth: int,
    hasReloadAnimation: bool)

  const DefaultSpriteProperties: SpriteProperties := SpriteProperties(60, 5, 0, 0, false)

  /** A sprite sheet, its number of frames and the frame shown next. */
  datatype AnimationData = AnimationData(spritePath: string, frameCount: int, currentFrame: int)

  /** A sound file and when it last played, in milliseconds on the caller's clock. */
  datatype SoundData = SoundData(soundPath: string, lastPlayed: int)

  /** Animations are keyed by a state and a direction. */
  type Key = (State, Direction)

  /** The keys the loader registers: WALK with each of its eight directions,
      every other state with NONE. */
  predicate IsRegisteredKey(k: Key)
  {
    (k.0 == Walk) == (k.1 != None)
  }

  /** Every registered key has an animation. */
  ghost predicate Populated(anims: map<Key, AnimationData>)
  {
    forall k: Key :: IsRegisteredKey(k) ==> k in anims
  }

  /** The frame counter is 0 or a frame index of the sheet; an animation with
      no frames keeps it at 0. */
  predicate FrameInRange(a: AnimationData)
  {
    0 <= a.currentFrame && (a.currentFrame == 0 || a.currentFrame < a.frameCount)
  }

  ghost predicate FramesInRange(anims: map<Key, AnimationData>)
  {
    forall k :: k in anims ==> FrameInRange(anims[k])
  }

  /** Both maps are shared with the engines, which write into their entries. */
  class ResourceRegistry {
    var animations: map<Key, AnimationData>
    var sounds: map<State, SoundData>
    const hasReload: bool

    /** What the configuration loader leaves behind. */
    ghost predicate Valid()
      reads this
    {
      Populated(animations) && FramesInRange(animations)
    }

    constructor (animations: map<Key, AnimationData>, sounds: map<State, SoundData>, hasReload: bool)
      ensures this.animations == animations && this.sounds == sounds && this.hasReload == hasReload
    {
      this.animations := animations;
      this.sounds := sounds;
      this.hasReload := hasReload;
    }

    /** The animation stored under (state, direction), or the ValueError the
        source raises when there is none. */
    function GetAnimation(state: State, direction: Direction := None): (r: Result<AnimationData>)
      reads this
      ensures r.Ok? <==> (state, direction) in animations
      ensures r.Ok? ==> r.value == animations[(state, direction)]
    {
      if (state, direction) in animations then Ok(animations[(state, direction)])
      else Err("State " + StateName(state) + " and direction " + DirectionName(direction) + " is invalid")
    }

    /** The sound stored for a state, or the ValueError the source raises. */
    function GetSound(state: State): (r: Result<SoundData>)
      reads this
      ensures r.Ok? <==> state in sounds
      ensures r.Ok? ==> r.value == sounds[state]
    {
      if state in sounds then Ok(sounds[state]) else Err("State " + StateName(state) + " has no sound")
    }
  }

  /** With the direction left at its default, every state except WALK finds
      its animation in a loaded registry, and WALK finds one for each of its
      eight directions. */
  lemma DefaultDirectionLookup(reg: ResourceRegistry, state: State, direction: Direction)
    requires reg.Valid()
    ensures state != Walk ==> reg.GetAnimation(state).Ok?
    ensures direction != None ==> reg.GetAnimation(Walk, direction).Ok?
  {
    assert IsRegisteredKey((state, None)) <== state != Walk;
    assert IsRegisteredKey((Walk, direction)) <== direction != None;
  }
}
