# Desktop gremlin: the animation and interaction state machine

This project models the core of a desktop pet. A single character (the
"gremlin") lives in a frameless window, and the model covers its behaviour:

- **State.** The gremlin is always in one of 14 states (INTRO, IDLE, HOVER,
  WALK, GRAB, SLEEP, the two actions, RELOAD, EMOTE, OUTRO, …) and faces
  one of 9 directions. It also carries an ammunition counter.
- **Registry.** A shared registry holds one frame counter per
  (state, direction) animation and one sound per state.
- **Frame clock.** A master timer advances the current animation one frame
  per tick. Animations that end on their last frame then hand over to a
  successor state.
- **Passive timers.** Timers send the gremlin to sleep, wake it up, end a
  walk's pause and trigger an emote at a random time.
- **Input.** Keyboard, mouse, hover and hotspot handlers move it between
  states, each gated by its own list of states it may act from.
- **Closing.** Closing the window plays the outro and unplugs the input
  handlers. The program exits when the outro's last frame has been shown.

There are two kinds of core file, and each is modelled in the source's own
form:

- **Imperative core** (the state manager, the frame and sound engines, the
  walk, timer, keyboard, mouse, hover and hotspot managers, the animation
  ticker and the window) becomes classes whose methods change their fields
  and say so in `modifies` clauses. The registry is a class whose two
  dictionaries are `map` fields.
- **Pure core** (`states.py`, the hotspot geometry, the emote-key
  validation) becomes datatypes and functions.

Every state-changing method is proved against a pure function on a
`Machine` value, which holds the state, direction, ammo, both registry
maps and the log of played sounds. Its `ensures` says the new state is
that function applied to the old one (`sm.View() == Transition(old(sm.View()), ...)`).
Lemmas about these functions then state what the source promises:

- the successor table of completions;
- the same-state guard and the shooting re-entry rule;
- the ammo and frame-counter invariant kept by every handler;
- the timers' guards;
- OUTRO being entered only by closing, and never left.

Modules, one file each, in dependency order:

| module | file | models |
|---|---|---|
| `Wrappers` | `wrappers.dfy` | `Option` and `Result` |
| `PyInt` | `pyint.dfy` | Python's `//`, `%` and `max` on integers |
| `States` | `states.dfy` | `src/states.py` |
| `Resources` | `resources.dfy` | `src/resources.py` |
| `Qt` | `qt_types.dfy` | key codes, mouse buttons, points, rectangles and events |
| `Settings` | `settings.dfy` | the preference records the core reads |
| `HotspotGeometry` | `hotspot_geometry.dfy` | `src/window/hotspot_geometry.py` |
| `Sound` | `sound_engine.dfy` | `src/engines/sound_engine.py` |
| `Frames` | `frame_engine.dfy` | `src/engines/frame_engine.py` |
| `Walking` | `walk_manager.dfy` | `src/fsm/walk_manager.py` |
| `StateMachine` | `state_manager.dfy` | `src/fsm/state_manager.py` |
| `Widgets` | `widget.dfy` | the window's position, focus and handler binding |
| `Timers` | `timer_manager.dfy` | `src/fsm/timer_manager.py` |
| `Keyboard` | `keyboard_manager.dfy` | `src/window/keyboard_manager.py` |
| `Mouse` | `mouse_manager.dfy` | `src/window/mouse_manager.py` |
| `Hover` | `hover_manager.dfy` | `src/window/hover_manager.py` |
| `Hotspots` | `hotspot_manager.dfy` | `src/window/hotspot_manager.py` |
| `Ticker` | `animation_ticker.dfy` | `src/fsm/animation_ticker.py` |
| `Assembly` | `window_assembly.dfy` | building the components of the window |
| `Window` | `gremlin_window.dfy` | `src/window/gremlin_window.py` |

The invariant `StateMachine.Inv` is what every handler keeps. The
constructor requires it of the registry it is given (`ResourceRegistry.Valid`):

- every key the state machine can ask for has an animation (WALK with each
  of its eight directions, every other state with NONE);
- every frame counter is 0 or an index below its frame count;
- the ammo lies in [0, 6];
- the current (state, direction) is a registered key.

`Window.GremlinWindow.Valid` adds that the components are wired together,
and that the input handlers are plugged in exactly while the state is not
OUTRO.

Where the code and its comments disagree, the model follows the code:

- The comment at `src/window/hotspot_manager.py:22-25` names only IDLE, HOVER
  and SLEEP as the hotspot source states. The code also allows WALK_IDLE.
- `close_app` unplugs six handlers and leaves `mouseMoveEvent` and the
  hotspot widgets bound. The model keeps those two paths live after the outro
  starts, and proves that they change nothing in OUTRO.
- The emote key test `char not in ascii_uppercase + digits` is a substring
  test. The empty string and runs such as `"AB"` pass it. `ord` then raises
  on them, the handler catches it, and the key resolves to nothing.
- When the pointer leaves during WALK, `src/window/hover_manager.py:44-47`
  switches to WALK_IDLE, and the comment at `:51` says the timer will handle
  what follows. Nothing on that path starts the walk-idle timer, so WALK_IDLE
  lasts until some other event or a timer that is already running.
  `Hover.HoverManager.OnMouseLeave` and `Window.GremlinWindow.LeaveEvent`
  touch no timer.

## Model

| member | source | states |
|---|---|---|
| PyInt.FloorDiv | src/fsm/timer_manager.py:66 | Python's floor division: for a positive divisor, the quotient is the largest q with q·b ≤ a (mirrored for a negative divisor) |
| PyInt.FloorMod | src/engines/frame_engine.py:28 | Python's modulo: a == b·(a // b) + r, with r in [0, b) for positive b and in (b, 0] for negative b |
| PyInt.Max | src/fsm/timer_manager.py:94-95 | the maximum is one of its arguments and at least both |
| Qt.Sub | src/window/mouse_manager.py:49 | point difference, the inverse of point addition: Sub(p, q) + q == p |
| States.StatesEnumerated | src/states.py:4-23 | there are exactly 14 states, all distinct, and every state is among them |
| States.DirectionsEnumerated | src/states.py:26-40 | there are exactly 9 distinct directions, NONE first, and every direction is among them |
| States.AnimationClassesPartition | src/states.py:51-72 | end-by-frame, end-by-timeout and looping are pairwise disjoint and together cover every state |
| States.TitleFrom | src/states.py:48 | str.title keeps the length of the name |
| States.RemoveUnderscores | src/states.py:48 | replace("_", "") leaves no underscore |
| States.ToPascalCase | src/states.py:43-48 | to_pascal_case never yields an underscore |
| States.TitleAppend | src/states.py:48 | str.title of a concatenation is the title of each part, the second read after the first's last character |
| States.TitleAfterUnderscore | src/states.py:48 | an underscore ends a word, so the letter after it is capitalised and the rest gives the PascalCase of what follows |
| States.RemoveUnderscoresAppend | src/states.py:48 | removing underscores distributes over concatenation |
| States.PascalCaseOfJoin | src/states.py:43-48 | for upper-case words joined by underscores, to_pascal_case capitalises each word and concatenates them |
| States.OneWordKey | src/states.py:43-48 | a one-word name becomes its capitalised form (IDLE → Idle) |
| States.TwoWordKey | src/states.py:43-48 | a two-word name becomes both words capitalised and concatenated (LEFT_ACTION → LeftAction) |
| States.StateKey | src/states.py:43-48 | to_pascal_case of every state's name is its configuration key (WALK_IDLE → WalkIdle, …) |
| States.DirectionKey | src/states.py:43-48 | to_pascal_case of every direction's name is its configuration key (UP_LEFT → UpLeft, …) |
| States.StateKeysDistinct | src/states.py:43-48 | different states give different keys, and each key decodes back to its state |
| States.StateKeyRoundTrip | src/states.py:43-48 | decoding a state's key gives the state |
| States.DirectionKeysDistinct | src/states.py:43-48 | different directions give different keys, and each key decodes back to its direction |
| States.DirectionKeyRoundTrip | src/states.py:43-48 | decoding a direction's key gives the direction |
| Resources.ResourceRegistry.constructor | src/resources.py:51-61 | the registry holds the given animation and sound maps and reload flag |
| Resources.ResourceRegistry.GetAnimation | src/resources.py:63-70 | succeeds exactly when (state, direction) has an entry, returning that entry; otherwise it is the ValueError |
| Resources.ResourceRegistry.GetSound | src/resources.py:72-77 | succeeds exactly when the state has a sound, returning it; otherwise it is the ValueError |
| Resources.DefaultDirectionLookup | src/resources.py:56-57 | in a loaded registry, every state but WALK is found with the default direction NONE, and WALK is found with each of its eight directions |
| HotspotGeometry.TopHotspot | src/window/hotspot_geometry.py:5-10 | the top hotspot has the configured size at y = 0, centred horizontally (the left margin equals the right one, or is one less) |
| HotspotGeometry.LeftHotspot | src/window/hotspot_geometry.py:13-18 | the left hotspot has the side size at x = 0, centred vertically |
| HotspotGeometry.RightHotspot | src/window/hotspot_geometry.py:21-26 | the right hotspot has the side size and its right edge on the frame's right edge |
| HotspotGeometry.SideHotspotsMirror | src/window/hotspot_geometry.py:13-26 | the side hotspots mirror each other, right.x = FrameWidth − left.x − w, at the same height and size |
| HotspotGeometry.HotspotsInsideFrame | src/window/hotspot_geometry.py:5-26 | when no hotspot is larger than the frame, all three lie inside the frame |
| Sound.PlaySpec | src/engines/sound_engine.py:31-47 | a sound plays exactly when the state has one and either there is no delay or the cooldown has run out; only that state's stamp can change, and only on a delayed play |
| Sound.NoSoundIsSilent | src/engines/sound_engine.py:33-36 | a state without a sound plays nothing and changes nothing |
| Sound.NoDelayAlwaysPlays | src/engines/sound_engine.py:39-47 | without a delay the sound always plays and its time stamp is kept |
| Sound.CooldownRule | src/engines/sound_engine.py:39-43 | inside the cooldown nothing plays and nothing changes; after it the stamp becomes now |
| Sound.CooldownSuppressesRepeat | src/engines/sound_engine.py:39-43 | a second delayed play within the delay of a first one is suppressed |
| Sound.SoundEngine.Play | src/engines/sound_engine.py:31-47 | the registry's sounds and the player's log change as PlaySpec says |
| Frames.CellRect | src/engines/frame_engine.py:26-30 | the cell shown has the frame's width and height |
| Frames.CellOfFrame | src/engines/frame_engine.py:26-30 | frame f sits in column f % columns and row f // columns of the sheet |
| Frames.CellsDistinct | src/engines/frame_engine.py:26-30 | with non-empty frames, different frames are cut from different cells |
| Frames.NextFrame | src/engines/frame_engine.py:34-36 | the counter goes up by one, or back to 0 once it reaches the frame count, and stays in range |
| Frames.Advanced | src/engines/frame_engine.py:20-36 | advancing changes only the advanced entry's counter; its frame count, its sheet and every other entry are kept |
| Frames.AdvancePreservesRange | src/engines/frame_engine.py:34-36 | a counter in [0, frame_count) stays there, and the whole registry stays in range |
| Frames.EmptyAnimationAlwaysCompletes | src/engines/frame_engine.py:34-39 | with frame_count = 0 every advance wraps to 0 and so reports completion |
| Frames.Run | src/engines/frame_engine.py:34-39 | n advances give n completion reports |
| Frames.RunToEnd | src/engines/frame_engine.py:34-39 | from frame k of an N-frame animation, the N − k advances report false until the last one, which reports true and ends at 0 |
| Frames.FullLoop | src/engines/frame_engine.py:34-39 | from 0, N advances report false N − 1 times and then true, ending at 0 |
| Frames.FrameEngine.constructor | src/engines/frame_engine.py:10-11 | the engine reads the shared registry and has shown nothing yet |
| Frames.FrameEngine.Advance | src/engines/frame_engine.py:13-39 | shows the pre-increment frame's cell, steps the counter as Advanced says, and reports true exactly when the counter is 0 afterwards |
| Walking.Axis | src/fsm/walk_manager.py:42-45 | one axis is 0 when both or neither of its keys are held, −1 with only the negative key and +1 with only the positive one |
| Walking.DirectionMapInverse | src/fsm/walk_manager.py:7-17 | DirectionMap is a bijection between the nine unit steps and the nine directions |
| Walking.VelocityByAxis | src/fsm/walk_manager.py:35-46 | vertical velocity is −v with only W, +v with only S and 0 otherwise; horizontally the same for A and D |
| Walking.VelocityFollowsDirection | src/fsm/walk_manager.py:35-64 | the direction is NONE exactly when not moving, and the velocity is the direction's step times v, so for v > 0 the signs agree |
| Walking.DirectionExamples | src/fsm/walk_manager.py:58-64 | W+A is UP_LEFT, S+D is DOWN_RIGHT, W+S+A is LEFT, all four keys is NONE |
| Walking.RecordTouchesOneFlag | src/fsm/walk_manager.py:70-96 | a press or release sets or clears only its own key's flag, and other keys change nothing |
| Walking.PressThenRelease | src/fsm/walk_manager.py:70-96 | releasing a key pressed while it was up restores the flags |
| Walking.NoKeysStill | src/fsm/walk_manager.py:98-103 | with no key held the gremlin is not moving, faces NONE and has zero velocity |
| Walking.WalkManager.constructor | src/fsm/walk_manager.py:21-29 | all four flags start cleared, with the configured speed |
| Walking.WalkManager.GetVelocity | src/fsm/walk_manager.py:35-46 | returns the velocity of the held keys |
| Walking.WalkManager.IsMoving | src/fsm/walk_manager.py:48-52 | true exactly when (W xor S) or (A xor D) |
| Walking.WalkManager.GetDirection | src/fsm/walk_manager.py:54-64 | returns the direction of the held keys, for all 16 combinations |
| Walking.WalkManager.RecordKeyPress | src/fsm/walk_manager.py:70-82 | sets the pressed key's flag, if it is W, A, S or D |
| Walking.WalkManager.RecordKeyRelease | src/fsm/walk_manager.py:84-96 | clears the released key's flag, if it is W, A, S or D |
| Walking.WalkManager.RecordMouseLeave | src/fsm/walk_manager.py:98-103 | clears all four flags |
| StateMachine.ResetFrame | src/fsm/state_manager.py:112-114 | resetting puts the key's counter at 0 and keeps its frame count, its sheet and every other entry |
| StateMachine.IsSpammable | src/fsm/state_manager.py:102-110 | only a shooting state with ammo can be spammable |
| StateMachine.EntryAmmo | src/fsm/state_manager.py:89-96 | entering an action spends one round if there is one, RELOAD refills to 6, and any other state keeps the ammo; [0, 6] is kept |
| StateMachine.SoundFor | src/fsm/state_manager.py:85-86 | play(state) with no delay hands the state's sound to the player, if it has one |
| StateMachine.EntryEffect | src/fsm/state_manager.py:83-96 | the entry effect touches only ammo and sounds, never the state, direction or frames |
| StateMachine.DirectionStep | src/fsm/state_manager.py:39-41 | the first step of transition_to records the new direction and touches nothing but frames |
| StateMachine.Transition | src/fsm/state_manager.py:29-49 | every transition ends at the requested state and direction and registers no new key |
| StateMachine.TransitionEffect | src/fsm/state_manager.py:39-49 | only the target's counter can change, and it restarts on a direction change; an accepted transition restarts it, applies the entry ammo and plays the sound iff asked; a refused one only records the direction |
| StateMachine.TransitionKeepsInv | src/fsm/state_manager.py:29-49 | a transition to a registered key keeps the invariant, including ammo in [0, 6] and frames in range |
| StateMachine.SameStateIsNoOp | src/fsm/state_manager.py:39-45 | asking again for the current state and direction, when not spammable, changes nothing |
| StateMachine.DirectionChangeAlwaysRecorded | src/fsm/state_manager.py:39-45 | a direction change is recorded and resets the new key's frame even when the state change is refused |
| StateMachine.ShootingReentry | src/fsm/state_manager.py:102-110 | a shooting state is re-entered exactly when there is ammo and its frame is past frame_count // 4; then one round is spent and it restarts |
| StateMachine.SoundOnlyWhenAccepted | src/fsm/state_manager.py:43-49 | a transition plays a sound exactly when it is accepted, asked to play, and the state has a sound |
| StateMachine.IdleOrHover | src/fsm/state_manager.py:51-56 | goes to HOVER with the pointer over the window, else to IDLE, with ammo kept |
| StateMachine.IdleOrHoverSound | src/fsm/state_manager.py:51-56 | HOVER's sound plays only when coming from IDLE or SLEEP; IDLE's plays on every entry into IDLE |
| StateMachine.IdleOrHoverKeepsInv | src/fsm/state_manager.py:51-56 | to_idle_or_hover keeps the invariant |
| StateMachine.ReloadCheck | src/fsm/state_manager.py:116-120 | goes to RELOAD iff the character can reload and the magazine is empty, else to idle-or-hover |
| StateMachine.Completed | src/fsm/state_manager.py:58-77 | on_completion exits exactly after OUTRO |
| StateMachine.CompletionOfLoops | src/fsm/state_manager.py:68-77 | the looping states stay as they are, and OUTRO exits without further change |
| StateMachine.CompletionToIdleOrHover | src/fsm/state_manager.py:62-73 | INTRO, PAT, POKE, RELOAD, WALK_IDLE and EMOTE complete into idle-or-hover |
| StateMachine.CompletionOfShooting | src/fsm/state_manager.py:66-67 | the actions complete into RELOAD iff the character can reload and the ammo is 0, else into idle-or-hover |
| StateMachine.CompletedKeepsInv | src/fsm/state_manager.py:58-77 | on_completion keeps the invariant |
| StateMachine.NoReloadNoAmmo | src/fsm/state_manager.py:26-27 | a character that starts with 0 rounds keeps 0 through every transition other than into RELOAD |
| StateMachine.ShotsSpendOneEach | src/fsm/state_manager.py:90-92 | n action entries from a ammo leave max(0, a − n) |
| StateMachine.AcceptedShotsSpend | src/fsm/state_manager.py:44-96 | after a run of accepted transitions into LEFT_ACTION or RIGHT_ACTION, the ammo is what Shots counts for that many shots |
| StateMachine.EmptyMagazineReloads | src/fsm/state_manager.py:116-120 | with reload animations, an action that completes with the magazine empty plays RELOAD and refills it to 6 |
| StateMachine.MagazineCycle | src/fsm/state_manager.py:29-120 | six accepted shots from a full magazine leave it empty, and the sixth action's completion plays RELOAD and refills it to 6 |
| StateMachine.StateManager.constructor | src/fsm/state_manager.py:18-27 | starts in IDLE facing NONE, not terminated, with 6 rounds iff the character can reload and 0 otherwise |
| StateMachine.StateManager.ResetCurrentFrame | src/fsm/state_manager.py:112-114 | the registry's animations become ResetFrame of the old ones |
| StateMachine.StateManager.HandleEntryEffect | src/fsm/state_manager.py:83-96 | the machine becomes EntryEffect of the old one |
| StateMachine.StateManager.TransitionTo | src/fsm/state_manager.py:29-49 | the machine becomes Transition of the old one, and the invariant is kept |
| StateMachine.StateManager.ToIdleOrHover | src/fsm/state_manager.py:51-56 | the machine becomes IdleOrHover of the old one |
| StateMachine.StateManager.CheckReload | src/fsm/state_manager.py:116-120 | the machine becomes ReloadCheck of the old one |
| StateMachine.StateManager.OnCompletion | src/fsm/state_manager.py:58-77 | the machine becomes Completed of the old one, and the program terminates after OUTRO |
| Widgets.WalkedAlongDirection | src/window/gremlin_window.py:76-79 | a walking step moves the window by v along each axis of the walking direction (up and left negative), and not at all when not moving |
| Widgets.GremlinWidget.UpdatePositionByWalking | src/window/gremlin_window.py:76-79 | the window moves by the walk manager's velocity, and a zero velocity leaves it in place |
| Widgets.GremlinWidget.Unplug | src/window/gremlin_window.py:86-91 | the window's input handlers are unplugged |
| Timers.Started | src/fsm/timer_manager.py:77-79 | QTimer.start runs the timer with the given interval and keeps its single-shot setting |
| Timers.MasterInterval | src/fsm/timer_manager.py:66 | the frame period 1000 // frame_rate is the longest whole number of milliseconds that fits frame_rate times into a second |
| Timers.EmoteWindow | src/fsm/timer_manager.py:89-95 | the emote delay's bounds satisfy 10000 ≤ lo ≤ hi, never below the configured minutes, and each is either its configured value or the floor |
| Timers.DefaultEmoteWindow | src/fsm/timer_manager.py:89-95 | with the default preferences the emote fires between 5 and 15 minutes |
| Timers.IdleTick | src/fsm/timer_manager.py:108-111 | the idle timeout puts IDLE to sleep and leaves every other state alone |
| Timers.SleepTick | src/fsm/timer_manager.py:113-116 | the sleep timeout wakes SLEEP into IDLE and leaves every other state alone |
| Timers.WalkIdleTick | src/fsm/timer_manager.py:118-120 | the walk-idle timeout sends WALK_IDLE to idle-or-hover, and a stale one changes nothing |
| Timers.EmoteTick | src/fsm/timer_manager.py:122-127 | the emote timeout starts EMOTE from WALK_IDLE, IDLE, HOVER and SLEEP, and otherwise changes nothing |
| Timers.EmoteDurTick | src/fsm/timer_manager.py:129-132 | the emote-duration timeout ends EMOTE in idle-or-hover, and otherwise changes nothing |
| Timers.TimerTicksKeepInv | src/fsm/timer_manager.py:108-132 | every timer tick keeps the invariant |
| Timers.TimersOnlyTouchRestingStates | src/fsm/timer_manager.py:108-132 | outside the resting states and EMOTE, no timer tick changes anything |
| Timers.SleepCycle | src/fsm/timer_manager.py:108-116 | idle, asleep, awake again: the sleep sound plays, then the idle sound |
| Timers.EmoteEnds | src/fsm/timer_manager.py:122-132 | an emote its timer starts is ended by its duration timer, in hover or idle |
| Timers.TimerManager.constructor | src/fsm/timer_manager.py:26-59 | all six timers are stopped, and walk-idle and emote-duration are the only single-shot ones |
| Timers.TimerManager.StartPassiveTimer | src/fsm/timer_manager.py:65-67 | the frame clock runs at 1000 // frame_rate ms, and the idle and emote timers restart |
| Timers.TimerManager.ResetPassiveTimer | src/fsm/timer_manager.py:69-71 | the idle timer restarts at IdleMinutes, and the emote timer restarts inside the emote window |
| Timers.TimerManager.ResetIdleTimer | src/fsm/timer_manager.py:77-79 | the idle timer runs for IdleMinutes · 60000 ms |
| Timers.TimerManager.ResetSleepTimer | src/fsm/timer_manager.py:81-83 | the sleep timer runs for SleepMinutes · 60000 ms |
| Timers.TimerManager.ResetWalkIdleTimer | src/fsm/timer_manager.py:85-87 | the walk-idle timer runs for 2000 ms |
| Timers.TimerManager.ResetEmoteTimer | src/fsm/timer_manager.py:89-98 | the emote timer runs for some delay inside the emote window |
| Timers.TimerManager.ResetEmoteDurTimer | src/fsm/timer_manager.py:100-102 | the emote-duration timer runs for EmoteDuration ms |
| Timers.TimerManager.TickIdleTimer | src/fsm/timer_manager.py:108-111 | the machine becomes IdleTick of the old one, and the sleep timer restarts iff the state was IDLE |
| Timers.TimerManager.TickSleepTimer | src/fsm/timer_manager.py:113-116 | the machine becomes SleepTick of the old one, and the idle timer restarts iff the state was SLEEP |
| Timers.TimerManager.TickWalkIdleTimer | src/fsm/timer_manager.py:118-120 | the machine becomes WalkIdleTick of the old one, and the single-shot timer has stopped |
| Timers.TimerManager.TickEmoteTimer | src/fsm/timer_manager.py:122-127 | the machine becomes EmoteTick of the old one; from a resting state the duration timer starts, otherwise only a new emote delay is drawn |
| Timers.TimerManager.TickEmoteDurTimer | src/fsm/timer_manager.py:129-132 | the machine becomes EmoteDurTick of the old one, and the idle and emote timers restart iff the state was EMOTE |
| Keyboard.StripLeft | src/window/keyboard_manager.py:38 | lstrip removes exactly the leading whitespace |
| Keyboard.StripRight | src/window/keyboard_manager.py:38 | rstrip removes exactly the trailing whitespace |
| Keyboard.StripLeftWhitespace | src/window/keyboard_manager.py:38 | lstrip of whitespace followed by a non-blank text gives that text |
| Keyboard.StripRightWhitespace | src/window/keyboard_manager.py:38 | rstrip of a text not ending in blank, followed by whitespace, gives that text |
| Keyboard.StripAround | src/window/keyboard_manager.py:38 | strip of one non-blank character with whitespace around it gives that character |
| Keyboard.UpperKey | src/window/keyboard_manager.py:38 | upper keeps the length and maps each character |
| Keyboard.CharRun | src/window/keyboard_manager.py:39 | a run of n consecutive characters |
| Keyboard.AllowedKeyCharsMembers | src/window/keyboard_manager.py:39 | a character is in ascii_uppercase + digits exactly when it is A–Z or 0–9 |
| Keyboard.SingleCharSubstring | src/window/keyboard_manager.py:39 | for one character, the substring test is membership |
| Keyboard.ResolveEmoteKey | src/window/keyboard_manager.py:25-44 | a key code exists exactly when the key is enabled and strips to one character whose upper case is A–Z or 0–9; it is that character's code |
| Keyboard.ResolveStripped | src/window/keyboard_manager.py:34-44 | a key that strips to one character resolves to the code of its upper case, if that is allowed |
| Keyboard.OneCharEmoteKey | src/window/keyboard_manager.py:34-44 | a single character with whitespace around it resolves to its upper case's code iff that is A–Z or 0–9 |
| Keyboard.LowerCaseLetterKey | src/window/keyboard_manager.py:34-44 | lower-case letters resolve to the code of their upper case |
| Keyboard.EmoteKeyNotOneChar | src/window/keyboard_manager.py:39-44 | empty or longer keys resolve to nothing, although the substring test lets some of them through |
| Keyboard.MovementLetterIsValidEmoteKey | src/window/keyboard_manager.py:34-44 | "w" resolves to Key_W, so an emote key can coincide with a movement key |
| Keyboard.AfterWalkCheck | src/window/keyboard_manager.py:76-84 | a press that moves the gremlin from WALK_IDLE, IDLE, HOVER, SLEEP or WALK enters WALK in the held keys' direction; otherwise nothing changes |
| Keyboard.AfterEmoteCheck | src/window/keyboard_manager.py:87-94 | the emote key in WALK_IDLE, IDLE, HOVER or SLEEP enters EMOTE; otherwise nothing changes |
| Keyboard.KeyHandlersKeepInv | src/window/keyboard_manager.py:71-112 | both key handlers keep the invariant |
| Keyboard.WalkTakesPrecedence | src/window/keyboard_manager.py:76-94 | a press that starts a walk never also starts an emote; otherwise the emote starts exactly when the emote key is pressed in a resting state |
| Keyboard.ReleaseWhileWalking | src/window/keyboard_manager.py:103-112 | a release in WALK keeps walking in the new direction while keys still move it, and otherwise stands in WALK_IDLE |
| Keyboard.TurningWhileWalking | src/window/keyboard_manager.py:103-108 | turning while walking restarts the new direction's walk animation silently, with ammo kept; an unchanged direction changes nothing |
| Keyboard.KeyboardManager.constructor | src/window/keyboard_manager.py:48-65 | the emote key is resolved once from the preferences |
| Keyboard.KeyboardManager.OnKeyPress | src/window/keyboard_manager.py:71-94 | auto-repeats change nothing; otherwise the flag is recorded, the machine becomes KeyPressed of the old one, and the passive timers restart after a walk or an emote (an emote also starts its duration timer) |
| Keyboard.KeyboardManager.PressChecks | src/window/keyboard_manager.py:76-94 | the walk check and then the emote check, on the state the walk check left |
| Keyboard.KeyboardManager.WalkCheck | src/window/keyboard_manager.py:76-84 | the machine becomes AfterWalkCheck of the old one, and the passive timers restart iff a walk started |
| Keyboard.KeyboardManager.EmoteCheck | src/window/keyboard_manager.py:87-94 | the machine becomes AfterEmoteCheck of the old one, and the duration and passive timers restart iff an emote started |
| Keyboard.KeyboardManager.OnKeyRelease | src/window/keyboard_manager.py:96-112 | auto-repeats change nothing; otherwise the flag is cleared, the machine becomes KeyReleased of the old one, and the walk-idle timer starts iff a walk stopped |
| Keyboard.KeyboardManager.WalkOrStand | src/window/keyboard_manager.py:103-112 | in WALK, keeps walking or stands in WALK_IDLE and starts the walk-idle timer |
| Mouse.MouseHandlersKeepInv | src/window/mouse_manager.py:38-67 | press and release keep the invariant |
| Mouse.PressFromRest | src/window/mouse_manager.py:38-52 | from a resting state, left enters GRAB and right enters POKE, restarting the animation with ammo kept and the sound played; every other press changes nothing |
| Mouse.ReleaseEndsGrab | src/window/mouse_manager.py:61-67 | a left release in GRAB goes to idle-or-hover; every other release changes nothing |
| Mouse.DragKeepsGrabPoint | src/window/mouse_manager.py:49-59 | dragging keeps the grabbed pixel under the cursor: the first move leaves the window in place, and later moves shift it by the cursor's displacement |
| Mouse.MouseManager.constructor | src/window/mouse_manager.py:16-36 | the drag offset starts at (0, 0) |
| Mouse.MouseManager.OnMousePress | src/window/mouse_manager.py:38-52 | the machine becomes MousePressed of the old one; only from a resting state do the timers restart, and a left press records cursor − window position |
| Mouse.MouseManager.OnMouseMove | src/window/mouse_manager.py:54-59 | in GRAB with exactly the left button held, the window goes to cursor − drag offset; otherwise it stays |
| Mouse.MouseManager.OnMouseRelease | src/window/mouse_manager.py:61-67 | the machine becomes MouseReleased of the old one |
| Hover.HoverHandlersKeepInv | src/window/hover_manager.py:28-53 | enter and leave keep the invariant |
| Hover.EnterWakesOnlyIdle | src/window/hover_manager.py:28-38 | entering turns IDLE into HOVER with its sound, and leaves every other state, SLEEP included, unchanged |
| Hover.LeaveEndsWalkAndHover | src/window/hover_manager.py:40-53 | leaving turns WALK into WALK_IDLE and HOVER into IDLE, and leaves every other state unchanged |
| Hover.PassingOverIdle | src/window/hover_manager.py:28-53 | the pointer passing over an idle gremlin brings it back to IDLE, having played the hover and then the idle sound |
| Hover.HoverManager.constructor | src/window/hover_manager.py:11-26 | holds the walk, state and timer managers and the window |
| Hover.HoverManager.OnMouseEnter | src/window/hover_manager.py:28-38 | takes the focus, restarts the idle timer, and the machine becomes MouseEntered of the old one |
| Hover.HoverManager.OnMouseLeave | src/window/hover_manager.py:40-53 | drops the focus, clears every walk key, touches no timer, and the machine becomes MouseLeft of the old one |
| Hotspots.AllowedFrom | src/window/hotspot_manager.py:26-33 | the allowed states are WALK_IDLE, IDLE, HOVER and SLEEP, plus the two actions exactly when the character can reload |
| Hotspots.SpotState | src/window/hotspot_manager.py:64-71 | the top hotspot asks for PAT and the side hotspots for an action |
| Hotspots.HotspotClickKeepsInv | src/window/hotspot_manager.py:50-58 | a hotspot click keeps the invariant |
| Hotspots.NoReloadNoSpam | src/window/hotspot_manager.py:26-33 | without a reload animation, right clicks during a shot change nothing |
| Hotspots.SpamWhileShooting | src/window/hotspot_manager.py:50-55 | with a reload animation, right-clicking the current action's hotspot fires again exactly when there is ammo and the shot is past its first quarter, spending one round and restarting the animation |
| Hotspots.LeftClickIsWindowPress | src/window/hotspot_manager.py:57-58 | a left click on a hotspot does what a left press on the window does, and nothing once the window's handlers are unplugged |
| Hotspots.HotspotManager.constructor | src/window/hotspot_manager.py:15-43 | builds the allowed list and the three geometries |
| Hotspots.HotspotManager.OnHotspotClick | src/window/hotspot_manager.py:50-58 | the machine becomes HotspotClicked of the old one, and the passive timers restart exactly for an allowed right click or an accepted left press |
| Hotspots.HotspotManager.RightClick | src/window/hotspot_manager.py:52-55 | in an allowed state, transitions and restarts the passive timers; otherwise nothing changes |
| Hotspots.HotspotManager.OnSpotClick | src/window/hotspot_manager.py:64-71 | each alias is the click handler for its spot's state |
| Ticker.Stepped | src/fsm/animation_ticker.py:22-24 | a tick advances only the current animation and registers no new key |
| Ticker.SteppedKeepsInv | src/fsm/animation_ticker.py:22-24 | advancing keeps the invariant |
| Ticker.TickKeepsInv | src/fsm/animation_ticker.py:20-32 | a full tick, completion included, keeps the invariant |
| Ticker.OnlyFramedAnimationsComplete | src/fsm/animation_ticker.py:27-28 | looping and timeout-ended states never complete on a tick, however often they wrap |
| Ticker.LastFrameCompletes | src/fsm/animation_ticker.py:24-28 | the tick on an end-by-frame animation's last frame completes it, and exits exactly for OUTRO |
| Ticker.EarlierFramesContinue | src/fsm/animation_ticker.py:24-28 | before its last frame, an animation only moves one frame on |
| Ticker.TickKeepsOutro | src/fsm/animation_ticker.py:20-32 | a tick never enters OUTRO and never leaves it |
| Ticker.ShootingStepEffect | src/fsm/animation_ticker.py:20-28 | a tick that only moves the frame keeps the ammo and the state; an accepted shot spends one round, as Shots counts it, and enters an action |
| Ticker.TicksBetweenShots | src/fsm/animation_ticker.py:20-28 | over any run of accepted shots and ticks that only move the frame, the ammo is what Shots counts for the shots alone, and the state is an action once a shot is taken |
| Ticker.SpamEmptiesMagazine | src/window/hotspot_manager.py:50-55 | six accepted shots from a full magazine, with frames advancing between them as on repeated clicks of one hotspot, empty it, and the action's completion plays RELOAD and refills it to 6 |
| Ticker.AnimationTicker.constructor | src/fsm/animation_ticker.py:10-18 | holds the state manager, the frame engine and the window |
| Ticker.AnimationTicker.Tick | src/fsm/animation_ticker.py:20-32 | advances the current animation once, completes it when it wraps and its tick-start state ends by frame, and moves the window exactly when the tick-start state is WALK |
| Assembly.NewCore | src/window/gremlin_window.py:46-50 | builds the frame and sound engines, the walk manager, the widget and the state manager, wired to one registry; the frame engine holds the sprite properties and has shown nothing, the walk manager holds move_speed with no key down, nothing has played, the widget is unfocused at its position, and the state manager starts in IDLE with its magazine |
| Assembly.NewHandlers | src/window/gremlin_window.py:52-70 | builds the ticker, the timers and the four input managers, all wired to the same components; the timers hold the preferences and emote preferences, the keyboard manager the emote key resolved from the preferences, the mouse manager a drag offset of (0, 0), and the hotspot manager its source states and the three rectangles computed from the sprite properties; all six timers are stopped, and the walk-idle and emote-duration timers are single-shot |
| Window.KeysNeverEnterOutro | src/window/keyboard_manager.py:71-112 | no key press or release enters OUTRO |
| Window.MouseNeverEntersOutro | src/window/mouse_manager.py:38-67 | no mouse press or release enters OUTRO |
| Window.HoverNeverEntersOutro | src/window/hover_manager.py:28-53 | entering or leaving never enters OUTRO |
| Window.HotspotNeverEntersOutro | src/window/hotspot_manager.py:50-71 | no hotspot click enters OUTRO |
| Window.TimersNeverEnterOutro | src/fsm/timer_manager.py:108-132 | no passive timer enters OUTRO |
| Window.OutroIgnoresWhatStaysBound | src/window/gremlin_window.py:81-91 | in OUTRO, hotspot clicks and timer timeouts, including a stale walk-idle timeout, change nothing, and the frame clock only plays the outro on |
| Window.GremlinWindow.constructor | src/window/gremlin_window.py:20-74 | after construction the state is INTRO facing NONE with a full or empty magazine, the inputs are plugged, the frame clock runs at 1000 // frame_rate, the idle and emote timers are started from the given preferences, and the sleep, walk-idle and emote-duration timers are still stopped; every component holds the settings it was built from (Assembly.Configured: sprite properties, move speed, preferences, resolved emote key, hotspot rectangles), nothing has been shown, the drag offset is (0, 0) and the window is unfocused at the given position |
| Window.GremlinWindow.Start | src/window/gremlin_window.py:73-74 | the intro transition, then start_passive_timer; the sleep, walk-idle and emote-duration timers, the shown frames, the drag offset and focus are untouched |
| Window.GremlinWindow.KeyPressEvent | src/window/keyboard_manager.py:63-65 | until close_app, a key press other than an auto-repeat is the keyboard manager's handler: the walk flags record the key, the machine makes the KeyPressed step, and the idle, emote and emote-duration timers restart as that handler restarts them; otherwise the walk flags, the machine and those timers are unchanged |
| Window.GremlinWindow.KeyReleaseEvent | src/window/keyboard_manager.py:63-65 | until close_app, a key release other than an auto-repeat is the keyboard manager's handler: the walk flags drop the key, the machine makes the KeyReleased step, and the walk-idle timer starts when a walk loses its last key; otherwise the walk flags, the machine and the walk-idle timer are unchanged |
| Window.GremlinWindow.MousePressEvent | src/window/mouse_manager.py:34-36 | until close_app, a press is the mouse manager's handler: the MousePressed step, the passive timers restarted exactly from the clickable states, and the drag offset recorded on a left press there; after it, the machine, those timers and the drag offset are unchanged |
| Window.GremlinWindow.MouseMoveEvent | src/window/mouse_manager.py:34-36 | a move is always the mouse manager's handler, since close_app leaves it bound |
| Window.GremlinWindow.MouseReleaseEvent | src/window/mouse_manager.py:34-36 | until close_app, a release is the mouse manager's handler; after it, nothing changes |
| Window.GremlinWindow.EnterEvent | src/window/hover_manager.py:25-26 | until close_app, entering is the hover manager's handler: the window takes focus, the idle timer restarts at idle_minutes and the machine makes the MouseEntered step; after it, focus, the idle timer and the machine are unchanged |
| Window.GremlinWindow.LeaveEvent | src/window/hover_manager.py:25-26 | until close_app, leaving is the hover manager's handler: focus clears, every walk key is released and the machine makes the MouseLeft step; after it, focus, the walk flags and the machine are unchanged |
| Window.GremlinWindow.HotspotPressEvent | src/window/hotspot_manager.py:45-48 | a hotspot press is the hotspot's click handler, before and after close_app: the HotspotClicked step, the passive timers restarted exactly when the click restarts them, and the drag offset recorded on a left press from a clickable state while plugged |
| Window.GremlinWindow.FrameTimeout | src/fsm/timer_manager.py:54 | the frame clock's timeout is one tick: the Ticked machine, the exit flag, the current cell appended to what is shown, and the position moved along the walk vector exactly in WALK; handlers stay plugged exactly while not in OUTRO |
| Window.GremlinWindow.IdleTimeout | src/fsm/timer_manager.py:55 | the idle timeout is tick_idle_timer: the IdleTick step, and the sleep timer restarts at sleep_minutes exactly from IDLE |
| Window.GremlinWindow.SleepTimeout | src/fsm/timer_manager.py:56 | the sleep timeout is tick_sleep_timer: the SleepTick step, and the idle timer restarts at idle_minutes exactly from SLEEP |
| Window.GremlinWindow.WalkIdleTimeout | src/fsm/timer_manager.py:57 | the walk-idle timeout is tick_walk_idle_timer: the WalkIdleTick step, and the single-shot timer is no longer running |
| Window.GremlinWindow.EmoteTimeout | src/fsm/timer_manager.py:58 | the emote timeout is tick_emote_timer: the EmoteTick step; from a state allowed to emote the duration timer starts, otherwise the emote timer is rescheduled within its window |
| Window.GremlinWindow.EmoteDurTimeout | src/fsm/timer_manager.py:59 | the emote-duration timeout is tick_emote_dur_timer: the EmoteDurTick step, the duration timer stops, and the passive timers restart exactly when the emote ends |
| Window.GremlinWindow.CloseApp | src/window/gremlin_window.py:81-91 | the machine makes the OUTRO transition, and the input handlers are unplugged |
| Window.GremlinWindow.CloseEvent | src/window/gremlin_window.py:93-95 | the close request is refused, and close_app runs instead: the machine makes the OUTRO transition and the inputs are unplugged |

## Left out

- Qt rendering is left out: the pixmaps, `sprite_label`, `setPixmap`/`sheet.copy` and `src/engines/sprite_engine.py` (a pixmap cache). `FrameEngine` keeps a ghost log of (sheet path, cell) pairs instead.
- Audio output is left out: the `QMediaPlayer`/`QAudioOutput` set-up, choosing the device, and the volume (a float). `SoundEngine` keeps a ghost log of the files handed to the player.
- Window flags, fixed size, title and focus policy are left out, because they do not affect the state machine.
- The system tray icon (`src/window/systray_icon.py`) is not part of this model. Its menu entry is the `close_app` that `CloseApp` models.
- Real-time `QTimer` scheduling is left out. Each timer is a value holding running, interval and single-shot. Each timeout is a method on the window that the environment may call at any time. Nothing models which timer fires first.
- `random.randint` becomes a nondeterministic choice inside the proved bounds. `Timers.TimerManager.ResetEmoteTimer` promises only that the delay lies in the emote window.
- `datetime.now()` becomes an integer number of milliseconds passed in as `now`. `delay_seconds` is an integer. No caller in the core passes a delay, so `now` is unused on every path the core takes.
- The pointer's presence (`underMouse`) is a parameter of every handler that reads it. Cursor positions are integer points.
- `sys.exit(0)` becomes the `terminated` flag of the state manager, which the tick sets after OUTRO's last frame.
- The configuration loader (`src/configs_loader.py`, `src/config_manager.py`) and the asset downloader are not part of this model. The constructor's precondition `ResourceRegistry.Valid` stands for a loaded registry: every key the state machine can ask for has an animation, and every counter is in range. The window's constructor also requires a non-zero frame rate and column count, since the source divides by both.
- ResourceRegistry.Valid: demands an animation for every key, which the loader does not guarantee. It registers LEFT_ACTION, RIGHT_ACTION and RELOAD only when they exist for a character without reload animations (`src/configs_loader.py:158-164`, `:206-208`), and it skips a state or a walking direction whose sprite name is empty (`:172-173`, `:196-197`). With such a registry, `transition_to` raises ValueError from `_reset_current_frame` (`src/resources.py:67-69`) on one of two paths. When the direction changes, the raise comes at `src/fsm/state_manager.py:39-40`, before the direction is recorded and before any sound or ammo change. Pressing W then A in IDLE, with an empty `UpLeft` sprite, asks for WALK with UP_LEFT and raises there, so `reset_passive_timer` never runs. When the direction is unchanged, the raise comes at `:48`, after the entry sound and the ammo change at `:47`. A side-hotspot right click on a character without action sprites takes that path. Neither error path is modelled.
- The picker, the downloader GUI and the legacy monolith files (`src/gremlin.py`, `src/movement_handler.py`, `src/hotspot_geometry.py`, `src/launcher.py`, `src/sprite_manager.py`) are not part of this model. They are superseded by the modules modelled here.
- Keyboard.UpperKey: only the characters whose upper case is a single ASCII letter are mapped (a–z, dotless ı, long ſ). Any other character keeps its case. That cannot change the outcome, because only an upper case in A–Z or 0–9 is accepted.
- Handler rebinding is modelled by one flag, `GremlinWidget.inputsPlugged`. The managers' `window.keyPressEvent = ...` assignments and `close_app`'s lambdas are not modelled as attribute replacement. The window's event methods dispatch on that flag instead.
- `GremlinWindow.__init__` is split into `Assembly.NewCore`, `Assembly.NewHandlers` and `GremlinWindow.Start`. The order differs in one place. In the source the window itself exists first (`super().__init__()`, `src/window/gremlin_window.py:21`), before any component. `Assembly.NewCore` builds the `GremlinWidget` fourth, after the walk manager it holds. Otherwise the components are built in the source's order. In the model no constructor reads another component's mutable state, so the order does not change the result.
