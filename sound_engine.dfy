/** The sound effect played on entering a state, with an optional cooldown.
    The audio player is a ghost log of the sound files handed to it. */
module Sound {

  import opened States
  import opened Resources
  import opened Wrappers

  /** What one call to play does: the sound map afterwards and the sound
      file handed to the player, if any. */
  datatype PlayOutcome = PlayOutcome(sounds: map<State, SoundData>, played: Option<string>)

  /** The cooldown has not run out: fewer than `delaySeconds` seconds have
      passed since the sound last played. */
  predicate CoolingDown(data: SoundData, delaySeconds: int, now: int)
  {
    now - data.lastPlayed < delaySeconds * 1000
  }

  /** play(state, delay_seconds) at time `now` (milliseconds). */
  function PlaySpec(sounds: map<State, SoundData>, state: State, delaySeconds: int, now: int): (r: PlayOutcome)
    ensures r.sounds.Keys == sounds.Keys
    ensures forall s :: s in sounds && s != state ==> r.sounds[s] == sounds[s]
    ensures r.played.Some? <==>
      state in sounds && (delaySeconds <= 0 || !CoolingDown(sounds[state], delaySeconds, now))
    ensures r.played.Some? ==> r.played.value == sounds[state].soundPath
    ensures r.sounds != sounds ==> delaySeconds > 0 && r.played.Some?
  {
    if state !in sounds then PlayOutcome(sounds, Nothing)
    else
      var data := sounds[state];
      if delaySeconds > 0 then
        if CoolingDown(data, delaySeconds, now) then PlayOutcome(sounds, Nothing)
        else PlayOutcome(sounds[state := data.(lastPlayed := now)], Some(data.soundPath))
      else PlayOutcome(sounds, Some(data.soundPath))
  }

  /** A state without a sound plays nothing and raises nothing. */
  lemma NoSoundIsSilent(sounds: map<State, SoundData>, state: State, delaySeconds: int, now: int)
    requires state !in sounds
    ensures PlaySpec(sounds, state, delaySeconds, now) == PlayOutcome(sounds, Nothing)
  {
  }

  /** Without a delay the sound always plays and its time stamp is kept. */
  lemma NoDelayAlwaysPlays(sounds: map<State, SoundData>, state: State, delaySeconds: int, now: int)
    requires state in sounds && delaySeconds <= 0
    ensures PlaySpec(sounds, state, delaySeconds, now) == PlayOutcome(sounds, Some(sounds[state].soundPath))
  {
  }

  /** Within the cooldown nothing plays and the time stamp is kept; after it
      the sound plays and is stamped with the current time. */
  lemma CooldownRule(sounds: map<State, SoundData>, state: State, delaySeconds: int, now: int)
    requires state in sounds && delaySeconds > 0
    ensures CoolingDown(sounds[state], delaySeconds, now) ==>
      PlaySpec(sounds, state, delaySeconds, now) == PlayOutcome(sounds, Nothing)
    ensures !CoolingDown(sounds[state], delaySeconds, now) ==>
      PlaySpec(sounds, state, delaySeconds, now).sounds[state].lastPlayed == now
  {
  }

  /** Two plays of the same sound with a delay: the second one, asked for
      within the delay of the first, is suppressed. */
  lemma CooldownSuppressesRepeat(sounds: map<State, SoundData>, state: State, delaySeconds: int, now: int, later: int)
    requires state in sounds && delaySeconds > 0
    requires !CoolingDown(sounds[state], delaySeconds, now)
    requires now <= later < now + delaySeconds * 1000
    ensures PlaySpec(PlaySpec(sounds, state, delaySeconds, now).sounds, state, delaySeconds, later).played == Nothing
  {
    var first := PlaySpec(sounds, state, delaySeconds, now);
    assert first.sounds[state].lastPlayed == now;
  }

  class SoundEngine {
    const reg: ResourceRegistry

    /** The sound files handed to the player, oldest first. */
    ghost var played: seq<string>

    constructor (reg: ResourceRegistry)
      ensures this.reg == reg && played == []
    {
      this.reg := reg;
      played := [];
    }

    /** The clock is read only when there is a delay, so callers that pass
        no delay may pass any `now`. */
    method Play(state: State, delaySeconds: int, now: int)
      modifies this`played, reg`sounds
      ensures reg.sounds == PlaySpec(old(reg.sounds), state, delaySeconds, now).sounds
      ensures played == old(played) + OptionToSeq(PlaySpec(old(reg.sounds), state, delaySeconds, now).played)
    {
      var data := reg.GetSound(state);
      if data.Err? {
        return;
      }
      if delaySeconds > 0 {
        if CoolingDown(data.value, delaySeconds, now) {
          return;
        }
        reg.sounds := reg.sounds[state := data.value.(lastPlayed := now)];
      }
      played := played + [data.value.soundPath];
    }
  }

  function OptionToSeq<T>(o: Option<T>): (r: seq<T>)
    ensures |r| <= 1 && (r == [] <==> o.Nothing?)
    ensures o.Some? ==> r == [o.value]
  {
    if o.Some? then [o.value] else []
  }
}
