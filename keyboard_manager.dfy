/** Keyboard input: W/A/S/D walk in eight directions, and an optional emote
    key plays the emote from the resting states. */
module Keyboard {

  import opened Wrappers
  import opened States
  import opened Resources
  import opened Qt
  import opened Walking
  import opened StateMachine
  import Timers

  const AllowedEmoteStates: seq<State> := [WalkIdle, Idle, Hover, Sleep]

  const AllowedWalkStates: seq<State> := AllowedEmoteStates + [Walk]

  /** The characters Python's str.isspace accepts. */
  predicate IsPyWhitespace(c: char)
  {
    c == ' ' || c == '\t' || c == '\n' || c == '\r' ||
    (0x0B <= c as int <= 0x0C) || (0x1C <= c as int <= 0x1F) ||
    c as int == 0x85 || c as int == 0xA0 || c as int == 0x1680 ||
    (0x2000 <= c as int <= 0x200A) || c as int == 0x2028 || c as int == 0x2029 ||
    c as int == 0x202F || c as int == 0x205F || c as int == 0x3000
  }

  /** str.lstrip(): the longest suffix that does not start with whitespace. */
  function StripLeft(s: string): (r: string)
    ensures |r| <= |s| && r == s[|s| - |r|..]
    ensures r == [] || !IsPyWhitespace(r[0])
    ensures forall i :: 0 <= i < |s| - |r| ==> IsPyWhitespace(s[i])
  {
    if |s| > 0 && IsPyWhitespace(s[0]) then StripLeft(s[1..]) else s
  }

  /** str.rstrip(): the longest prefix that does not end with whitespace. */
  function StripRight(s: string): (r: string)
    ensures |r| <= |s| && r == s[..|r|]
    ensures r == [] || !IsPyWhitespace(r[|r| - 1])
    ensures forall i :: |r| <= i < |s| ==> IsPyWhitespace(s[i])
  {
    if |s| > 0 && IsPyWhitespace(s[|s| - 1]) then StripRight(s[..|s| - 1]) else s
  }

  /** str.strip() */
  function Strip(s: string): string
  {
    StripRight(StripLeft(s))
  }

  /** str.upper() on one character, for the characters whose upper case is
      a single ASCII letter: a-z, dotless i and long s. */
  function UpperKeyChar(c: char): char
  {
    if 'a' <= c <= 'z' then (c as int - 32) as char
    else if c as int == 0x131 then 'I'
    else if c as int == 0x17F then 'S'
    else c
  }

  function UpperKey(s: string): (r: string)
    ensures |r| == |s| && forall i :: 0 <= i < |s| ==> r[i] == UpperKeyChar(s[i])
  {
    if |s| == 0 then [] else [UpperKeyChar(s[0])] + UpperKey(s[1..])
  }

  /** string.ascii_uppercase + string.digits */
  const AllowedKeyChars: string := CharRun('A', 26) + CharRun('0', 10)

  /** `n` consecutive characters starting at `first`. */
  function CharRun(first: char, n: nat): (r: string)
    requires first as int + n <= 0xD800
    ensures |r| == n && forall i :: 0 <= i < n ==> r[i] as int == first as int + i
  {
    seq(n, i requires 0 <= i < n => (first as int + i) as char)
  }

  predicate IsAllowedKeyChar(c: char)
  {
    'A' <= c <= 'Z' || '0' <= c <= '9'
  }

  lemma AllowedKeyCharsMembers(c: char)
    ensures c in AllowedKeyChars <==> IsAllowedKeyChar(c)
  {
    if 'A' <= c <= 'Z' {
      assert CharRun('A', 26)[c as int - 'A' as int] == c;
    } else if '0' <= c <= '9' {
      assert CharRun('0', 10)[c as int - '0' as int] == c;
    }
    forall i | 0 <= i < |AllowedKeyChars|
      ensures IsAllowedKeyChar(AllowedKeyChars[i])
    {
      if i < 26 {
        assert AllowedKeyChars[i] == CharRun('A', 26)[i];
      } else {
        assert AllowedKeyChars[i] == CharRun('0', 10)[i - 26];
      }
    }
  }

  /** `t` occurs in `s` at index `i`. */
  predicate OccursAt(t: string, s: string, i: int)
  {
    0 <= i <= |s| - |t| && s[i..i + |t|] == t
  }

  /** Python's `t in s` on strings: t occurs in s as a contiguous run. */
  predicate IsSubstring(t: string, s: string)
  {
    exists i :: 0 <= i <= |s| - |t| && OccursAt(t, s, i)
  }

  /** A one-character string occurs in s iff its character does. */
  lemma SingleCharSubstring(c: char, s: string)
    ensures IsSubstring([c], s) <==> c in s
  {
    if c in s {
      var i :| 0 <= i < |s| && s[i] == c;
      assert s[i..i + 1] == [c];
      assert OccursAt([c], s, i);
    }
    if IsSubstring([c], s) {
      var i :| 0 <= i <= |s| - 1 && OccursAt([c], s, i);
      assert s[i..i + 1] == [c];
      assert s[i] == s[i..i + 1][0];
    }
  }

  /** resolve_emote_key: the key code of the emote key, or nothing when the
      key is disabled, not one of A-Z and 0-9 after stripping and upper-casing,
      or not a single character (ord raises on the empty string and on longer
      ones, which the membership test, a substring test, lets through). */
  function ResolveEmoteKey(enabled: bool, key: string): (r: Option<int>)
    ensures r.Some? <==> enabled && |Strip(key)| == 1 && IsAllowedKeyChar(UpperKeyChar(Strip(key)[0]))
    ensures r.Some? ==> r.value == UpperKeyChar(Strip(key)[0]) as int
    ensures r.Some? ==> 0x30 <= r.value <= 0x39 || 0x41 <= r.value <= 0x5A
  {
    if !enabled then Nothing
    else
      var c := UpperKey(Strip(key));
      ResolveSingle(c);
      if !IsSubstring(c, AllowedKeyChars) then Nothing
      else if |c| != 1 then Nothing
      else Some(c[0] as int)
  }

  /** Helper of ResolveEmoteKey: for one character, the substring test is
      membership in the allowed characters. */
  lemma ResolveSingle(c: string)
    ensures |c| == 1 ==> (IsSubstring(c, AllowedKeyChars) <==> IsAllowedKeyChar(c[0]))
  {
    if |c| == 1 {
      assert c == [c[0]];
      SingleCharSubstring(c[0], AllowedKeyChars);
      AllowedKeyCharsMembers(c[0]);
    }
  }

  predicate AllWhitespace(s: string)
  {
    forall i :: 0 <= i < |s| ==> IsPyWhitespace(s[i])
  }

  lemma {:induction false} StripLeftWhitespace(w: string, t: string)
    requires AllWhitespace(w) && (t == [] || !IsPyWhitespace(t[0]))
    ensures StripLeft(w + t) == t
    decreases |w|
  {
    if w == [] {
      assert w + t == t;
    } else {
      assert (w + t)[1..] == w[1..] + t;
      StripLeftWhitespace(w[1..], t);
    }
  }

  lemma {:induction false} StripRightWhitespace(t: string, w: string)
    requires AllWhitespace(w) && (t == [] || !IsPyWhitespace(t[|t| - 1]))
    ensures StripRight(t + w) == t
    decreases |w|
  {
    if w == [] {
      assert t + w == t;
    } else {
      assert (t + w)[..|t + w| - 1] == t + w[..|w| - 1];
      StripRightWhitespace(t, w[..|w| - 1]);
    }
  }

  lemma StripAround(pre: string, c: char, post: string)
    requires AllWhitespace(pre) && AllWhitespace(post) && !IsPyWhitespace(c)
    ensures Strip(pre + [c] + post) == [c] && Strip([c]) == [c]
  {
    assert pre + [c] + post == pre + ([c] + post);
    StripLeftWhitespace(pre, [c] + post);
    StripRightWhitespace([c], post);
  }

  /** A key of one character, with any whitespace around it, gives the
      code of its upper case iff that is one of A-Z and 0-9: lower-case
      letters count as upper-case ones. */
  lemma OneCharEmoteKey(pre: string, c: char, post: string)
    requires AllWhitespace(pre) && AllWhitespace(post) && !IsPyWhitespace(c)
    ensures ResolveEmoteKey(true, pre + [c] + post) ==
      if IsAllowedKeyChar(UpperKeyChar(c)) then Some(UpperKeyChar(c) as int) else Nothing
  {
    StripAround(pre, c, post);
    ResolveStripped(pre + [c] + post, c);
  }

  /** Lower-case ASCII letters count as their upper-case forms. */
  lemma LowerCaseLetterKey(pre: string, c: char, post: string)
    requires AllWhitespace(pre) && AllWhitespace(post) && 'a' <= c <= 'z'
    ensures ResolveEmoteKey(true, pre + [c] + post) == Some(c as int - 32)
  {
    var u := UpperKeyChar(c);
    assert u as int == c as int - 32;
    assert 'A' <= u <= 'Z';
    OneCharEmoteKey(pre, c, post);
  }

  lemma ResolveStripped(key: string, c: char)
    requires Strip(key) == [c]
    ensures ResolveEmoteKey(true, key) ==
      if IsAllowedKeyChar(UpperKeyChar(c)) then Some(UpperKeyChar(c) as int) else Nothing
  {
  }

  /** The empty key and a key of two or more characters pass the membership
      test (a substring test) whenever they occur in A-Z0-9, but give no key
      code, because ord needs exactly one character. */
  lemma EmoteKeyNotOneChar(key: string)
    requires |Strip(key)| != 1
    ensures ResolveEmoteKey(true, key) == Nothing
    ensures IsSubstring(UpperKey(Strip("")), AllowedKeyChars)
    ensures IsSubstring(AllowedKeyChars[..2], AllowedKeyChars)
  {
    assert OccursAt("", AllowedKeyChars, 0);
    assert OccursAt(AllowedKeyChars[..2], AllowedKeyChars, 0);
  }

  /** A movement letter is a valid emote key: "w" resolves to Key_W. */
  lemma MovementLetterIsValidEmoteKey()
    ensures ResolveEmoteKey(true, "w") == Some(KeyW)
  {
    assert "w" == [] + ['w'] + [];
    LowerCaseLetterKey([], 'w', []);
  }

  /** The first half of on_key_press: a move from a state that may walk. */
  predicate StartsWalk(s: State, k: Keys)
  {
    Moving(k) && s in AllowedWalkStates
  }

  function AfterWalkCheck(m: Machine, k: Keys): (r: Machine)
    requires Populated(m.anims)
    ensures StartsWalk(m.state, k) ==> r.state == Walk && r.direction == DirectionOf(k)
    ensures !StartsWalk(m.state, k) ==> r == m
  {
    if StartsWalk(m.state, k) then
      VelocityFollowsDirection(k, 0);
      assert IsRegisteredKey((Walk, DirectionOf(k)));
      Transition(m, Walk, DirectionOf(k), true)
    else m
  }

  /** The second half: the emote key, checked against the state the first
      half left behind. */
  predicate StartsEmote(s: State, key: int, emoteKey: Option<int>)
  {
    emoteKey.Some? && key == emoteKey.value && s in AllowedEmoteStates
  }

  function AfterEmoteCheck(m: Machine, key: int, emoteKey: Option<int>): (r: Machine)
    requires Populated(m.anims)
    ensures StartsEmote(m.state, key, emoteKey) ==> r.state == Emote && r.direction == None
    ensures !StartsEmote(m.state, key, emoteKey) ==> r == m
  {
    if StartsEmote(m.state, key, emoteKey) then
      assert IsRegisteredKey((Emote, None));
      Transition(m, Emote, None, true)
    else m
  }

  /** on_key_press on a machine, once the walk manager holds `k`. */
  function KeyPressed(m: Machine, k: Keys, key: int, emoteKey: Option<int>): (r: Machine)
    requires Populated(m.anims)
  {
    AfterEmoteCheck(AfterWalkCheck(m, k), key, emoteKey)
  }

  /** on_key_release on a machine, once the walk manager holds `k`. */
  function KeyReleased(m: Machine, k: Keys): (r: Machine)
    requires Populated(m.anims)
  {
    if m.state == Walk then
      if Moving(k) then
        VelocityFollowsDirection(k, 0);
        assert IsRegisteredKey((Walk, DirectionOf(k)));
        Transition(m, Walk, DirectionOf(k), true)
      else
        assert IsRegisteredKey((WalkIdle, None));
        Transition(m, WalkIdle, None, true)
    else m
  }

  /** Both key handlers keep the machine's invariant. */
  lemma KeyHandlersKeepInv(m: Machine, k: Keys, key: int, emoteKey: Option<int>)
    requires Inv(m)
    ensures Inv(KeyPressed(m, k, key, emoteKey)) && Inv(KeyReleased(m, k))
  {
    VelocityFollowsDirection(k, 0);
    if StartsWalk(m.state, k) {
      TransitionKeepsInv(m, Walk, DirectionOf(k), true);
    }
    var m1 := AfterWalkCheck(m, k);
    if StartsEmote(m1.state, key, emoteKey) {
      TransitionKeepsInv(m1, Emote, None, true);
    }
    if m.state == Walk {
      if Moving(k) {
        TransitionKeepsInv(m, Walk, DirectionOf(k), true);
      } else {
        TransitionKeepsInv(m, WalkIdle, None, true);
      }
    }
  }

  /** A press that starts a walk never also starts an emote, even when the
      emote key is that movement key; a press that does not start a walk
      plays the emote exactly when it is the emote key and the state rests. */
  lemma WalkTakesPrecedence(m: Machine, k: Keys, key: int, emoteKey: Option<int>)
    requires Populated(m.anims)
    ensures StartsWalk(m.state, k) ==> KeyPressed(m, k, key, emoteKey) == AfterWalkCheck(m, k)
    ensures !StartsWalk(m.state, k) ==>
      (KeyPressed(m, k, key, emoteKey).state == Emote <==> m.state == Emote || StartsEmote(m.state, key, emoteKey))
  {
    assert IsRegisteredKey((Emote, None));
  }

  /** Releasing a key while walking: if a direction is still held the
      gremlin walks that way, otherwise it stands in WALK_IDLE. */
  lemma ReleaseWhileWalking(m: Machine, k: Keys)
    requires Populated(m.anims) && m.state == Walk
    ensures KeyReleased(m, k).state == (if Moving(k) then Walk else WalkIdle)
    ensures KeyReleased(m, k).direction == DirectionOf(k)
  {
    VelocityFollowsDirection(k, 0);
  }

  /** Turning while walking is silent: the walk animation of the new
      direction restarts, nothing plays, and the ammo is untouched; letting
      go of a key that leaves the direction as it was changes nothing. */
  lemma TurningWhileWalking(m: Machine, k: Keys)
    requires Populated(m.anims) && m.state == Walk && IsRegisteredKey((m.state, m.direction)) && Moving(k)
    ensures DirectionOf(k) != m.direction ==>
      KeyReleased(m, k) == m.(direction := DirectionOf(k), anims := ResetFrame(m.anims, (Walk, DirectionOf(k))))
    ensures DirectionOf(k) == m.direction ==> KeyReleased(m, k) == m
  {
    VelocityFollowsDirection(k, 0);
    if DirectionOf(k) != m.direction {
      DirectionChangeAlwaysRecorded(m, DirectionOf(k), true);
    } else {
      SameStateIsNoOp(m, true);
    }
  }

  class KeyboardManager {
    const sm: StateManager
    const walk: WalkManager
    const tm: Timers.TimerManager
    const emoteKey: Option<int>

    constructor (sm: StateManager, walk: WalkManager, tm: Timers.TimerManager, emoteKeyEnabled: bool, key: string)
      ensures this.sm == sm && this.walk == walk && this.tm == tm
      ensures emoteKey == ResolveEmoteKey(emoteKeyEnabled, key)
    {
      this.sm := sm;
      this.walk := walk;
      this.tm := tm;
      emoteKey := ResolveEmoteKey(emoteKeyEnabled, key);
    }

    /** on_key_press: auto-repeats are ignored. A walk step restarts the
        idle and emote timers; an emote also runs the emote-duration timer
        and restarts them again. */
    method OnKeyPress(event: KeyEvent)
      requires sm.Valid()
      modifies walk`w, walk`a, walk`s, walk`d
      modifies sm`currentState, sm`currentDirection, sm`ammo, sm.reg`animations, sm.reg`sounds, sm.sound`played
      modifies tm`idle, tm`emote, tm`emoteDur
      ensures sm.Valid()
      ensures event.isAutoRepeat ==> (walk.View() == old(walk.View()) && sm.View() == old(sm.View()) &&
        tm.idle == old(tm.idle) && tm.emote == old(tm.emote) && tm.emoteDur == old(tm.emoteDur))
      ensures !event.isAutoRepeat ==> walk.View() == Pressed(old(walk.View()), event.key)
      ensures !event.isAutoRepeat ==> sm.View() == KeyPressed(old(sm.View()), walk.View(), event.key, emoteKey)
      ensures !event.isAutoRepeat ==>
        var walks := StartsWalk(old(sm.currentState), walk.View());
        var emotes := !walks && StartsEmote(old(sm.currentState), event.key, emoteKey);
        (walks || emotes ==> tm.PassiveRestarted(old(tm.idle), old(tm.emote))) &&
        (!walks && !emotes ==> tm.idle == old(tm.idle) && tm.emote == old(tm.emote)) &&
        tm.emoteDur == (if emotes then Timers.Started(old(tm.emoteDur), tm.emotePrefs.emoteDuration) else old(tm.emoteDur))
    {
      if !event.isAutoRepeat {
        walk.RecordKeyPress(event);
        PressChecks(event.key);
      }
    }

    /** The two checks of on_key_press, once the walk manager holds the key. */
    method PressChecks(key: int)
      requires sm.Valid()
      modifies sm`currentState, sm`currentDirection, sm`ammo, sm.reg`animations, sm.reg`sounds, sm.sound`played
      modifies tm`idle, tm`emote, tm`emoteDur
      ensures sm.Valid()
      ensures sm.View() == KeyPressed(old(sm.View()), walk.View(), key, emoteKey)
      ensures StartsWalk(old(sm.currentState), walk.View()) ==>
        tm.PassiveRestarted(old(tm.idle), old(tm.emote)) && tm.emoteDur == old(tm.emoteDur)
      ensures !StartsWalk(old(sm.currentState), walk.View()) && StartsEmote(old(sm.currentState), key, emoteKey) ==>
        tm.PassiveRestarted(old(tm.idle), old(tm.emote)) &&
        tm.emoteDur == Timers.Started(old(tm.emoteDur), tm.emotePrefs.emoteDuration)
      ensures !StartsWalk(old(sm.currentState), walk.View()) && !StartsEmote(old(sm.currentState), key, emoteKey) ==>
        tm.idle == old(tm.idle) && tm.emote == old(tm.emote) && tm.emoteDur == old(tm.emoteDur)
    {
      var walked := WalkCheck();
      ghost var m1 := sm.View();
      assert Walk !in AllowedEmoteStates;
      var emoted := EmoteCheck(key);
      assert walked ==> !emoted;
      assert sm.View() == AfterEmoteCheck(m1, key, emoteKey);
    }

    /** The walk check of on_key_press. */
    method WalkCheck() returns (walked: bool)
      requires sm.Valid()
      modifies sm`currentState, sm`currentDirection, sm`ammo, sm.reg`animations, sm.reg`sounds, sm.sound`played
      modifies tm`idle, tm`emote
      ensures sm.Valid()
      ensures sm.View() == AfterWalkCheck(old(sm.View()), walk.View())
      ensures walked == StartsWalk(old(sm.currentState), walk.View())
      ensures sm.currentState == if walked then Walk else old(sm.currentState)
      ensures walked ==> tm.PassiveRestarted(old(tm.idle), old(tm.emote))
      ensures !walked ==> tm.idle == old(tm.idle) && tm.emote == old(tm.emote)
    {
      var moving := walk.IsMoving();
      walked := moving && sm.currentState in AllowedWalkStates;
      if walked {
        var dir := walk.GetDirection();
        VelocityFollowsDirection(walk.View(), 0);
        sm.TransitionTo(Walk, dir);
        tm.ResetPassiveTimer();
      }
    }

    /** The emote-key check of on_key_press. */
    method EmoteCheck(key: int) returns (emoted: bool)
      requires sm.Valid()
      modifies sm`currentState, sm`currentDirection, sm`ammo, sm.reg`animations, sm.reg`sounds, sm.sound`played
      modifies tm`idle, tm`emote, tm`emoteDur
      ensures sm.Valid()
      ensures sm.View() == AfterEmoteCheck(old(sm.View()), key, emoteKey)
      ensures emoted == StartsEmote(old(sm.currentState), key, emoteKey)
      ensures emoted ==>
        tm.emoteDur == Timers.Started(old(tm.emoteDur), tm.emotePrefs.emoteDuration) &&
        tm.PassiveRestarted(old(tm.idle), old(tm.emote))
      ensures !emoted ==>
        tm.idle == old(tm.idle) && tm.emote == old(tm.emote) && tm.emoteDur == old(tm.emoteDur)
    {
      emoted := emoteKey.Some? && key == emoteKey.value && sm.currentState in AllowedEmoteStates;
      if emoted {
        sm.TransitionTo(Emote);
        tm.ResetEmoteDurTimer();
        tm.ResetPassiveTimer();
      }
    }

    /** on_key_release: auto-repeats are ignored. A walk that stops starts
        the walk-idle timer. */
    method OnKeyRelease(event: KeyEvent)
      requires sm.Valid()
      modifies walk`w, walk`a, walk`s, walk`d
      modifies sm`currentState, sm`currentDirection, sm`ammo, sm.reg`animations, sm.reg`sounds, sm.sound`played
      modifies tm`walkIdle
      ensures sm.Valid()
      ensures event.isAutoRepeat ==> walk.View() == old(walk.View()) && sm.View() == old(sm.View()) && tm.walkIdle == old(tm.walkIdle)
      ensures !event.isAutoRepeat ==> walk.View() == Released(old(walk.View()), event.key)
      ensures !event.isAutoRepeat ==> sm.View() == KeyReleased(old(sm.View()), walk.View())
      ensures tm.walkIdle == if !event.isAutoRepeat && old(sm.currentState) == Walk && !Moving(walk.View())
        then Timers.Started(old(tm.walkIdle), Timers.WalkIdleTimeout) else old(tm.walkIdle)
    {
      if !event.isAutoRepeat {
        walk.RecordKeyRelease(event);
        if sm.currentState == Walk {
          WalkOrStand();
        }
      }
    }

    /** The still-walking check of on_key_release. */
    method WalkOrStand()
      requires sm.Valid() && sm.currentState == Walk
      modifies sm`currentState, sm`currentDirection, sm`ammo, sm.reg`animations, sm.reg`sounds, sm.sound`played
      modifies tm`walkIdle
      ensures sm.Valid()
      ensures sm.View() == KeyReleased(old(sm.View()), walk.View())
      ensures tm.walkIdle == if Moving(walk.View()) then old(tm.walkIdle)
        else Timers.Started(old(tm.walkIdle), Timers.WalkIdleTimeout)
    {
      var moving := walk.IsMoving();
      if moving {
        var dir := walk.GetDirection();
        VelocityFollowsDirection(walk.View(), 0);
        sm.TransitionTo(Walk, dir);
      } else {
        sm.TransitionTo(WalkIdle);
        tm.ResetWalkIdleTimer();
      }
    }
  }
}
