/** The gremlin's modes, the walking directions, the three animation classes
    and the enum-to-JSON-key conversion used by the configuration loader. */
module States {

  import opened Wrappers

  /** Exactly one state is active at any time. */
  datatype State =
    | Idle | Hover | Sleep | Intro | Outro | Grab | Walk | WalkIdle
    | Poke | Pat | LeftAction | RightAction | Reload | Emote

  /** WALK has eight directions; None stands for "no direction" and keys
      every other animation. */
  datatype Direction =
    | None | Up | Down | Left | Right | UpLeft | UpRight | DownLeft | DownRight

  const AllStates: seq<State> :=
    [Idle, Hover, Sleep, Intro, Outro, Grab, Walk, WalkIdle,
     Poke, Pat, LeftAction, RightAction, Reload, Emote]

  const AllDirections: seq<Direction> :=
    [None, Up, Down, Left, Right, UpLeft, UpRight, DownLeft, DownRight]

  /** Animations that end when their last frame has been shown. */
  const EndByFrameAnimations: seq<State> :=
    [Intro, LeftAction, RightAction, Pat, Poke, Reload, Outro]

  /** Animations that a timer ends. */
  const EndByTimeoutAnimations: seq<State> := [WalkIdle, Emote]

  /** Animations that loop until some event moves the gremlin on. */
  const LoopAnimations: seq<State> := [Idle, Hover, Walk, Grab, Sleep]

  /** AllStates lists each of the 14 states exactly once. */
  lemma StatesEnumerated()
    ensures |AllStates| == 14
    ensures forall s: State :: s in AllStates
    ensures forall i, j :: 0 <= i < j < |AllStates| ==> AllStates[i] != AllStates[j]
  {
    forall s: State ensures s in AllStates {
      match s
      case Idle => assert AllStates[0] == s;
      case Hover => assert AllStates[1] == s;
      case Sleep => assert AllStates[2] == s;
      case Intro => assert AllStates[3] == s;
      case Outro => assert AllStates[4] == s;
      case Grab => assert AllStates[5] == s;
      case Walk => assert AllStates[6] == s;
      case WalkIdle => assert AllStates[7] == s;
      case Poke => assert AllStates[8] == s;
      case Pat => assert AllStates[9] == s;
      case LeftAction => assert AllStates[10] == s;
      case RightAction => assert AllStates[11] == s;
      case Reload => assert AllStates[12] == s;
      case Emote => assert AllStates[13] == s;
    }
  }

  /** Direction has nine members, NONE and the eight compass directions. */
  lemma DirectionsEnumerated()
    ensures |AllDirections| == 9 && AllDirections[0] == None
    ensures forall d: Direction :: d in AllDirections
    ensures forall i, j :: 0 <= i < j < |AllDirections| ==> AllDirections[i] != AllDirections[j]
  {
    forall d: Direction ensures d in AllDirections {
      match d
      case None => assert AllDirections[0] == d;
      case Up => assert AllDirections[1] == d;
      case Down => assert AllDirections[2] == d;
      case Left => assert AllDirections[3] == d;
      case Right => assert AllDirections[4] == d;
      case UpLeft => assert AllDirections[5] == d;
      case UpRight => assert AllDirections[6] == d;
      case DownLeft => assert AllDirections[7] == d;
      case DownRight => assert AllDirections[8] == d;
    }
  }

  /** Every state belongs to exactly one of the three animation classes. */
  lemma AnimationClassesPartition(s: State)
    ensures s in EndByFrameAnimations || s in EndByTimeoutAnimations || s in LoopAnimations
    ensures !(s in EndByFrameAnimations && s in EndByTimeoutAnimations)
    ensures !(s in EndByFrameAnimations && s in LoopAnimations)
    ensures !(s in EndByTimeoutAnimations && s in LoopAnimations)
  {
  }

  // ---- Enum names and to_pascal_case ---------------------------------------

  /** `State.name` */
  function StateName(s: State): string
  {
    match s
    case Idle => "IDLE"
    case Hover => "HOVER"
    case Sleep => "SLEEP"
    case Intro => "INTRO"
    case Outro => "OUTRO"
    case Grab => "GRAB"
    case Walk => "WALK"
    case WalkIdle => "WALK" + "_" + "IDLE"
    case Poke => "POKE"
    case Pat => "PAT"
    case LeftAction => "LEFT" + "_" + "ACTION"
    case RightAction => "RIGHT" + "_" + "ACTION"
    case Reload => "RELOAD"
    case Emote => "EMOTE"
  }

  /** `Direction.name` */
  function DirectionName(d: Direction): string
  {
    match d
    case None => "NONE"
    case Up => "UP"
    case Down => "DOWN"
    case Left => "LEFT"
    case Right => "RIGHT"
    case UpLeft => "UP" + "_" + "LEFT"
    case UpRight => "UP" + "_" + "RIGHT"
    case DownLeft => "DOWN" + "_" + "LEFT"
    case DownRight => "DOWN" + "_" + "RIGHT"
  }

  /** Python's notion of a cased character, restricted to ASCII letters
      (enum names contain nothing else besides underscores). */
  predicate IsCased(c: char)
  {
    'A' <= c <= 'Z' || 'a' <= c <= 'z'
  }

  function UpperChar(c: char): char
  {
    if 'a' <= c <= 'z' then (c as int - 32) as char else c
  }

  function LowerChar(c: char): char
  {
    if 'A' <= c <= 'Z' then (c as int + 32) as char else c
  }

  /** `str.title()` on the rest `s` of a string whose previous character was
      cased iff `prevCased`: a cased character following a cased one is
      lower-cased, any other cased character is upper-cased, and an uncased
      one is kept and starts a new word. */
  function TitleFrom(s: string, prevCased: bool): (r: string)
    ensures |r| == |s|
  {
    if s == [] then [] else [TitleChar(s[0], prevCased)] + TitleFrom(s[1..], IsCased(s[0]))
  }

  function TitleChar(c: char, prevCased: bool): char
  {
    if !IsCased(c) then c else if prevCased then LowerChar(c) else UpperChar(c)
  }

  /** `s.replace("_", "")` */
  function RemoveUnderscores(s: string): (r: string)
    ensures '_' !in r
  {
    if s == [] then [] else (if s[0] == '_' then [] else [s[0]]) + RemoveUnderscores(s[1..])
  }

  /** `enum.name.title().replace("_", "")`, e.g. LEFT_ACTION becomes LeftAction. */
  function ToPascalCase(name: string): (r: string)
    ensures '_' !in r
  {
    RemoveUnderscores(TitleFrom(name, false))
  }

  // ---- What to_pascal_case does to an enum name -----------------------------

  /** A non-empty word of upper-case ASCII letters, as enum names are made of. */
  predicate UpperWord(w: string)
  {
    |w| > 0 && forall i :: 0 <= i < |w| ==> 'A' <= w[i] <= 'Z'
  }

  /** Words joined by underscores. */
  function Join(ws: seq<string>): string
  {
    if |ws| == 0 then "" else if |ws| == 1 then ws[0] else ws[0] + "_" + Join(ws[1..])
  }

  /** The first letter kept as it is (it is upper case), the rest lower-cased. */
  function LowerAll(s: string): string
  {
    if s == [] then [] else [LowerChar(s[0])] + LowerAll(s[1..])
  }

  function Capitalize(w: string): string
  {
    if w == [] then [] else [w[0]] + LowerAll(w[1..])
  }

  function ConcatCapitalized(ws: seq<string>): string
  {
    if ws == [] then "" else Capitalize(ws[0]) + ConcatCapitalized(ws[1..])
  }

  /** Whether the character before the rest of a string is cased, after `a`. */
  function CasedAfter(a: string, p: bool): bool
  {
    if a == [] then p else IsCased(a[|a| - 1])
  }

  /** Titling a concatenation: the second part continues from the last
      character of the first. */
  lemma {:induction false} TitleAppend(a: string, b: string, p: bool)
    ensures TitleFrom(a + b, p) == TitleFrom(a, p) + TitleFrom(b, CasedAfter(a, p))
  {
    if a == [] {
      assert a + b == b;
    } else {
      var t := a[1..];
      assert a + b == [a[0]] + (t + b);
      assert CasedAfter(t, IsCased(a[0])) == CasedAfter(a, p);
      TitleAppend(t, b, IsCased(a[0]));
      var h := [TitleChar(a[0], p)];
      var x, y := TitleFrom(t, IsCased(a[0])), TitleFrom(b, CasedAfter(a, p));
      assert TitleFrom(a + b, p) == h + (x + y);
      assert h + (x + y) == (h + x) + y;
    }
  }

  /** After a cased character, a run of upper-case letters is lower-cased. */
  lemma {:induction false} TitleOfUpperRun(s: string)
    requires forall i :: 0 <= i < |s| ==> 'A' <= s[i] <= 'Z'
    ensures TitleFrom(s, true) == LowerAll(s)
    ensures '_' !in LowerAll(s)
  {
    if s != [] {
      TitleOfUpperRun(s[1..]);
    }
  }

  lemma {:induction false} RemoveUnderscoresAppend(a: string, b: string)
    ensures RemoveUnderscores(a + b) == RemoveUnderscores(a) + RemoveUnderscores(b)
  {
    if a != [] {
      var head: string := if a[0] == '_' then [] else [a[0]];
      assert (a + b)[0] == a[0];
      assert (a + b)[1..] == a[1..] + b;
      RemoveUnderscoresAppend(a[1..], b);
      calc {
        RemoveUnderscores(a + b);
        head + RemoveUnderscores(a[1..] + b);
        head + (RemoveUnderscores(a[1..]) + RemoveUnderscores(b));
        (head + RemoveUnderscores(a[1..])) + RemoveUnderscores(b);
      }
    } else {
      assert a + b == b;
    }
  }

  lemma {:induction false} RemoveUnderscoresNone(s: string)
    requires '_' !in s
    ensures RemoveUnderscores(s) == s
  {
    if s != [] {
      RemoveUnderscoresNone(s[1..]);
    }
  }

  /** An upper-case word after an uncased character is capitalised. */
  lemma TitleOfUpperWord(w: string)
    requires UpperWord(w)
    ensures TitleFrom(w, false) == Capitalize(w)
    ensures '_' !in Capitalize(w)
  {
    assert w == [w[0]] + w[1..];
    TitleAppend([w[0]], w[1..], false);
    TitleOfUpperRun(w[1..]);
  }

  /** An underscore ends a word: what follows is titled afresh. */
  lemma TitleAfterUnderscore(rest: string)
    ensures TitleFrom("_" + rest, true) == "_" + TitleFrom(rest, false)
    ensures RemoveUnderscores("_" + TitleFrom(rest, false)) == ToPascalCase(rest)
  {
    assert ("_" + rest)[0] == '_';
    assert ("_" + rest)[1..] == rest;
    var t := TitleFrom(rest, false);
    assert ("_" + t)[0] == '_';
    assert ("_" + t)[1..] == t;
  }

  /** to_pascal_case removes every underscore and capitalises each word. */
  lemma {:induction false} PascalCaseOfJoin(ws: seq<string>)
    requires |ws| > 0 && forall i :: 0 <= i < |ws| ==> UpperWord(ws[i])
    ensures ToPascalCase(Join(ws)) == ConcatCapitalized(ws)
  {
    var w := ws[0];
    TitleOfUpperWord(w);
    RemoveUnderscoresNone(Capitalize(w));
    if |ws| == 1 {
      assert ConcatCapitalized(ws[1..]) == "";
      assert Capitalize(w) + "" == Capitalize(w);
    } else {
      var rest := Join(ws[1..]);
      assert forall i :: 0 <= i < |ws[1..]| ==> UpperWord(ws[1..][i]) by {
        forall i | 0 <= i < |ws[1..]| ensures UpperWord(ws[1..][i]) {
          assert ws[1..][i] == ws[i + 1];
        }
      }
      PascalCaseOfJoin(ws[1..]);
      assert Join(ws) == w + ("_" + rest);
      TitleAppend(w, "_" + rest, false);
      assert IsCased(w[|w| - 1]);
      TitleAfterUnderscore(rest);
      RemoveUnderscoresAppend(Capitalize(w), "_" + TitleFrom(rest, false));
      calc {
        ToPascalCase(Join(ws));
        RemoveUnderscores(TitleFrom(w, false) + TitleFrom("_" + rest, true));
        RemoveUnderscores(Capitalize(w) + ("_" + TitleFrom(rest, false)));
        RemoveUnderscores(Capitalize(w)) + RemoveUnderscores("_" + TitleFrom(rest, false));
        Capitalize(w) + ToPascalCase(rest);
        Capitalize(w) + ConcatCapitalized(ws[1..]);
      }
    }
  }

  /** A name made of one word becomes that word capitalised. */
  lemma OneWordKey(w: string)
    requires UpperWord(w)
    ensures ToPascalCase(w) == Capitalize(w)
  {
    PascalCaseOfJoin([w]);
    assert [w][1..] == [];
    assert Capitalize(w) + "" == Capitalize(w);
  }

  /** A name made of two words becomes both words capitalised, joined. */
  lemma TwoWordKey(a: string, b: string)
    requires UpperWord(a) && UpperWord(b)
    ensures ToPascalCase(a + "_" + b) == Capitalize(a) + Capitalize(b)
  {
    var ws := [a, b];
    assert ws[0] == a && ws[1..] == [b];
    assert Join(ws) == a + "_" + b;
    PascalCaseOfJoin(ws);
    assert [b][0] == b && [b][1..] == [];
    assert Capitalize(b) + "" == Capitalize(b);
    assert ConcatCapitalized([b]) == Capitalize(b);
    assert ConcatCapitalized(ws) == Capitalize(a) + ConcatCapitalized([b]);
  }

  /** Capitalize, character by character. */
  lemma CapitalizeChars(w: string, k: string)
    requires |w| == |k| > 0 && k[0] == w[0]
    requires forall i :: 1 <= i < |w| ==> k[i] == LowerChar(w[i])
    ensures Capitalize(w) == k
  {
    LowerAllChars(w[1..], k[1..]);
  }

  lemma {:induction false} LowerAllChars(s: string, t: string)
    requires |s| == |t| && forall i :: 0 <= i < |s| ==> t[i] == LowerChar(s[i])
    ensures LowerAll(s) == t
  {
    if s != [] {
      LowerAllChars(s[1..], t[1..]);
    }
  }

  /** The JSON key the loader reads for each state's animation. */
  function StateKeyName(s: State): string
  {
    match s
    case Idle => "Idle"
    case Hover => "Hover"
    case Sleep => "Sleep"
    case Intro => "Intro"
    case Outro => "Outro"
    case Grab => "Grab"
    case Walk => "Walk"
    case WalkIdle => "Walk" + "Idle"
    case Poke => "Poke"
    case Pat => "Pat"
    case LeftAction => "Left" + "Action"
    case RightAction => "Right" + "Action"
    case Reload => "Reload"
    case Emote => "Emote"
  }

  /** The JSON key the loader reads for each walking direction. */
  function DirectionKeyName(d: Direction): string
  {
    match d
    case None => "None"
    case Up => "Up"
    case Down => "Down"
    case Left => "Left"
    case Right => "Right"
    case UpLeft => "Up" + "Left"
    case UpRight => "Up" + "Right"
    case DownLeft => "Down" + "Left"
    case DownRight => "Down" + "Right"
  }

  /** The key of each state's animation is its name in PascalCase. */
  lemma StateKey(s: State)
    ensures ToPascalCase(StateName(s)) == StateKeyName(s)
  {
    match s
    case Idle => IdleStateKey();
    case Hover => HoverStateKey();
    case Sleep => SleepStateKey();
    case Intro => IntroStateKey();
    case Outro => OutroStateKey();
    case Grab => GrabStateKey();
    case Walk => WalkStateKey();
    case WalkIdle => WalkIdleStateKey();
    case Poke => PokeStateKey();
    case Pat => PatStateKey();
    case LeftAction => LeftActionStateKey();
    case RightAction => RightActionStateKey();
    case Reload => ReloadStateKey();
    case Emote => EmoteStateKey();
  }

  lemma IdleStateKey() ensures ToPascalCase(StateName(Idle)) == StateKeyName(Idle) {
    OneWordKey("IDLE"); CapitalizeChars("IDLE", "Idle");
  }

  lemma HoverStateKey() ensures ToPascalCase(StateName(Hover)) == StateKeyName(Hover) {
    OneWordKey("HOVER"); CapitalizeChars("HOVER", "Hover");
  }

  lemma SleepStateKey() ensures ToPascalCase(StateName(Sleep)) == StateKeyName(Sleep) {
    OneWordKey("SLEEP"); CapitalizeChars("SLEEP", "Sleep");
  }

  lemma IntroStateKey() ensures ToPascalCase(StateName(Intro)) == StateKeyName(Intro) {
    OneWordKey("INTRO"); CapitalizeChars("INTRO", "Intro");
  }

  lemma OutroStateKey() ensures ToPascalCase(StateName(Outro)) == StateKeyName(Outro) {
    OneWordKey("OUTRO"); CapitalizeChars("OUTRO", "Outro");
  }

  lemma GrabStateKey() ensures ToPascalCase(StateName(Grab)) == StateKeyName(Grab) {
    OneWordKey("GRAB"); CapitalizeChars("GRAB", "Grab");
  }

  lemma WalkStateKey() ensures ToPascalCase(StateName(Walk)) == StateKeyName(Walk) {
    OneWordKey("WALK"); CapitalizeChars("WALK", "Walk");
  }

  lemma WalkIdleStateKey() ensures ToPascalCase(StateName(WalkIdle)) == StateKeyName(WalkIdle) {
    TwoWordKey("WALK", "IDLE"); CapitalizeChars("WALK", "Walk"); CapitalizeChars("IDLE", "Idle");
  }

  lemma PokeStateKey() ensures ToPascalCase(StateName(Poke)) == StateKeyName(Poke) {
    OneWordKey("POKE"); CapitalizeChars("POKE", "Poke");
  }

  lemma PatStateKey() ensures ToPascalCase(StateName(Pat)) == StateKeyName(Pat) {
    OneWordKey("PAT"); CapitalizeChars("PAT", "Pat");
  }

  lemma LeftActionStateKey() ensures ToPascalCase(StateName(LeftAction)) == StateKeyName(LeftAction) {
    TwoWordKey("LEFT", "ACTION"); CapitalizeChars("LEFT", "Left"); CapitalizeChars("ACTION", "Action");
  }

  lemma RightActionStateKey() ensures ToPascalCase(StateName(RightAction)) == StateKeyName(RightAction) {
    TwoWordKey("RIGHT", "ACTION"); CapitalizeChars("RIGHT", "Right"); CapitalizeChars("ACTION", "Action");
  }

  lemma ReloadStateKey() ensures ToPascalCase(StateName(Reload)) == StateKeyName(Reload) {
    OneWordKey("RELOAD"); CapitalizeChars("RELOAD", "Reload");
  }

  lemma EmoteStateKey() ensures ToPascalCase(StateName(Emote)) == StateKeyName(Emote) {
    OneWordKey("EMOTE"); CapitalizeChars("EMOTE", "Emote");
  }

  /** The key of each walking direction is its name in PascalCase. */
  lemma DirectionKey(d: Direction)
    ensures ToPascalCase(DirectionName(d)) == DirectionKeyName(d)
  {
    match d
    case None => NoneDirectionKey();
    case Up => UpDirectionKey();
    case Down => DownDirectionKey();
    case Left => LeftDirectionKey();
    case Right => RightDirectionKey();
    case UpLeft => UpLeftDirectionKey();
    case UpRight => UpRightDirectionKey();
    case DownLeft => DownLeftDirectionKey();
    case DownRight => DownRightDirectionKey();
  }

  lemma NoneDirectionKey() ensures ToPascalCase(DirectionName(None)) == DirectionKeyName(None) {
    OneWordKey("NONE"); CapitalizeChars("NONE", "None");
  }

  lemma UpDirectionKey() ensures ToPascalCase(DirectionName(Up)) == DirectionKeyName(Up) {
    OneWordKey("UP"); CapitalizeChars("UP", "Up");
  }

  lemma DownDirectionKey() ensures ToPascalCase(DirectionName(Down)) == DirectionKeyName(Down) {
    OneWordKey("DOWN"); CapitalizeChars("DOWN", "Down");
  }

  lemma LeftDirectionKey() ensures ToPascalCase(DirectionName(Left)) == DirectionKeyName(Left) {
    OneWordKey("LEFT"); CapitalizeChars("LEFT", "Left");
  }

  lemma RightDirectionKey() ensures ToPascalCase(DirectionName(Right)) == DirectionKeyName(Right) {
    OneWordKey("RIGHT"); CapitalizeChars("RIGHT", "Right");
  }

  lemma UpLeftDirectionKey() ensures ToPascalCase(DirectionName(UpLeft)) == DirectionKeyName(UpLeft) {
    TwoWordKey("UP", "LEFT"); CapitalizeChars("UP", "Up"); CapitalizeChars("LEFT", "Left");
  }

  lemma UpRightDirectionKey() ensures ToPascalCase(DirectionName(UpRight)) == DirectionKeyName(UpRight) {
    TwoWordKey("UP", "RIGHT"); CapitalizeChars("UP", "Up"); CapitalizeChars("RIGHT", "Right");
  }

  lemma DownLeftDirectionKey() ensures ToPascalCase(DirectionName(DownLeft)) == DirectionKeyName(DownLeft) {
    TwoWordKey("DOWN", "LEFT"); CapitalizeChars("DOWN", "Down"); CapitalizeChars("LEFT", "Left");
  }

  lemma DownRightDirectionKey() ensures ToPascalCase(DirectionName(DownRight)) == DirectionKeyName(DownRight) {
    TwoWordKey("DOWN", "RIGHT"); CapitalizeChars("DOWN", "Down"); CapitalizeChars("RIGHT", "Right");
  }

  /** Reads a state's key back. */
  function StateOfKey(k: string): Option<State>
  {
    if k == "Idle" then Some(Idle)
    else if k == "Hover" then Some(Hover)
    else if k == "Sleep" then Some(Sleep)
    else if k == "Intro" then Some(Intro)
    else if k == "Outro" then Some(Outro)
    else if k == "Grab" then Some(Grab)
    else if k == "Walk" then Some(Walk)
    else if k == "Walk" + "Idle" then Some(WalkIdle)
    else if k == "Poke" then Some(Poke)
    else if k == "Pat" then Some(Pat)
    else if k == "Left" + "Action" then Some(LeftAction)
    else if k == "Right" + "Action" then Some(RightAction)
    else if k == "Reload" then Some(Reload)
    else if k == "Emote" then Some(Emote)
    else Nothing
  }

  function DirectionOfKey(k: string): Option<Direction>
  {
    if k == "None" then Some(None)
    else if k == "Up" then Some(Up)
    else if k == "Down" then Some(Down)
    else if k == "Left" then Some(Left)
    else if k == "Right" then Some(Right)
    else if k == "Up" + "Left" then Some(UpLeft)
    else if k == "Up" + "Right" then Some(UpRight)
    else if k == "Down" + "Left" then Some(DownLeft)
    else if k == "Down" + "Right" then Some(DownRight)
    else Nothing
  }

  /** Different states get different JSON keys. */
  lemma StateKeysDistinct(s: State, t: State)
    ensures StateOfKey(ToPascalCase(StateName(s))) == Some(s)
    ensures s != t ==> ToPascalCase(StateName(s)) != ToPascalCase(StateName(t))
  {
    StateKey(s);
    StateKey(t);
    StateKeyRoundTrip(s);
    StateKeyRoundTrip(t);
  }

  lemma StateKeyRoundTrip(s: State)
    ensures StateOfKey(StateKeyName(s)) == Some(s)
  {
  }

  /** Different directions get different JSON keys. */
  lemma DirectionKeysDistinct(d: Direction, e: Direction)
    ensures DirectionOfKey(ToPascalCase(DirectionName(d))) == Some(d)
    ensures d != e ==> ToPascalCase(DirectionName(d)) != ToPascalCase(DirectionName(e))
  {
    DirectionKey(d);
    DirectionKey(e);
    DirectionKeyRoundTrip(d);
    DirectionKeyRoundTrip(e);
  }

  lemma DirectionKeyRoundTrip(d: Direction)
    ensures DirectionOfKey(DirectionKeyName(d)) == Some(d)
  {
  }
}
