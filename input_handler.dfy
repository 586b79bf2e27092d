/** The keyboard timing controller of the `useInputHandler` hook: key
    edges become game callbacks with DAS (delayed auto shift), ARR (auto
    repeat rate), DCD (DAS cut delay) and SDF (soft drop factor).

    The browser timers are pending events: a DAS timeout that is either
    pending or not, and two repeating intervals. Their elapsing is an event
    of its own (DasTimeout, ArrTick, SoftDropTick); the delays and
    intervals they were started with are kept in the state. Each event is
    specified by a function from the old refs to the new refs and the
    callbacks invoked, in order; the class Handler performs the same
    updates in place on its fields. */
module InputHandler {
  import opened Wrappers
  import opened Text
  import opened Settings

  datatype Direction = Left | Right

  /** The props callbacks the handler can invoke. */
  datatype Callback = OnMoveLeft | OnMoveRight | OnSoftDrop | OnHardDrop | OnRotateCW | OnRotateCCW | OnRotate180 | OnHold | OnPause

  function MoveCallback(d: Direction): Callback
  {
    if d == Left then OnMoveLeft else OnMoveRight
  }

  // -------------------------------------------------------- key lookup

  /** Object.entries(keyBindings): the interface's eight keys in
      declaration order, then rotate180 when the mapper has added it. */
  function Entries(kb: KeyBindings): seq<(Action, string)>
  {
    [(MoveLeft, kb.moveLeft), (MoveRight, kb.moveRight), (SoftDrop, kb.softDrop), (HardDrop, kb.hardDrop),
     (RotateCW, kb.rotateCW), (RotateCCW, kb.rotateCCW), (Hold, kb.hold), (Pause, kb.pause)]
    + (if kb.rotate180.Some? then [(Rotate180, kb.rotate180.value)] else [])
  }

  /** The entries list exactly the bound actions, each with its binding. */
  lemma EntriesAreBindings(kb: KeyBindings)
    ensures forall i :: 0 <= i < |Entries(kb)| ==> Binding(kb, Entries(kb)[i].0) == Some(Entries(kb)[i].1)
    ensures forall a :: Binding(kb, a).Some? ==> exists i :: 0 <= i < |Entries(kb)| && Entries(kb)[i].0 == a
  {
    var es := Entries(kb);
    forall a | Binding(kb, a).Some? ensures exists i :: 0 <= i < |es| && es[i].0 == a {
      match a
      case MoveLeft => assert es[0].0 == a;
      case MoveRight => assert es[1].0 == a;
      case SoftDrop => assert es[2].0 == a;
      case HardDrop => assert es[3].0 == a;
      case RotateCW => assert es[4].0 == a;
      case RotateCCW => assert es[5].0 == a;
      case Hold => assert es[6].0 == a;
      case Pause => assert es[7].0 == a;
      case Rotate180 => assert es[8].0 == a;
    }
  }

  /** binding.toLowerCase() === key.toLowerCase() || binding === key */
  predicate Matches(binding: string, key: string)
  {
    Lower(binding) == Lower(key) || binding == key
  }

  /** The action of the first entry whose binding matches. */
  function ActionFor(es: seq<(Action, string)>, key: string): Option<Action>
  {
    if |es| == 0 then None
    else if Matches(es[0].1, key) then Some(es[0].0)
    else ActionFor(es[1..], key)
  }

  /** ActionFor finds the first matching entry, and nothing when no entry matches. */
  lemma {:induction false} ActionForIsFirstMatch(es: seq<(Action, string)>, key: string)
    ensures ActionFor(es, key).None? <==> forall i :: 0 <= i < |es| ==> !Matches(es[i].1, key)
    ensures ActionFor(es, key).Some? ==>
      exists i :: 0 <= i < |es| && es[i].0 == ActionFor(es, key).value && Matches(es[i].1, key) &&
        forall j :: 0 <= j < i ==> !Matches(es[j].1, key)
  {
    if |es| > 0 {
      ActionForIsFirstMatch(es[1..], key);
      if !Matches(es[0].1, key) && ActionFor(es, key).Some? {
        var i :| 0 <= i < |es[1..]| && es[1..][i].0 == ActionFor(es, key).value && Matches(es[1..][i].1, key) &&
          forall j :: 0 <= j < i ==> !Matches(es[1..][j].1, key);
        assert es[i + 1] == es[1..][i];
        forall j | 0 <= j < i + 1 ensures !Matches(es[j].1, key) {
          if j > 0 {
            assert es[j] == es[1..][j - 1];
          }
        }
      }
      if !Matches(es[0].1, key) && ActionFor(es, key).None? {
        forall i | 0 <= i < |es| ensures !Matches(es[i].1, key) {
          if i > 0 {
            assert es[i] == es[1..][i - 1];
          }
        }
      }
    }
  }

  /** getActionForKey: scan the entries in order, return at the first match. */
  method GetActionForKey(kb: KeyBindings, key: string) returns (action: Option<Action>)
    ensures action == ActionFor(Entries(kb), key)
  {
    var es := Entries(kb);
    for i := 0 to |es|
      invariant ActionFor(es[i..], key) == ActionFor(es, key)
    {
      assert es[i..][1..] == es[i + 1..];
      if Lower(es[i].1) == Lower(key) || es[i].1 == key {
        return Some(es[i].0);
      }
    }
    return None;
  }

  // ------------------------------------------------------------- state

  /** A pending DAS timeout, started for `direction`, firing after `delay` ms. */
  datatype DasTimer = DasTimer(delay: nat, direction: Direction)

  /** A running ARR interval repeating the move in `direction` every `interval` ms. */
  datatype ArrTimer = ArrTimer(interval: nat, direction: Direction)

  /** The hook's refs; softDropTimer holds the running soft-drop interval. */
  datatype HState = HState(
    keysPressed: set<string>,
    dasTimer: Option<DasTimer>,
    arrTimer: Option<ArrTimer>,
    softDropTimer: Option<nat>,
    currentDirection: Option<Direction>,
    dasCharged: bool)

  /** The refs as the hook creates them. */
  function Idle(): (h: HState)
    ensures Valid(h) && h.keysPressed == {} && h.currentDirection.None?
  {
    HState({}, None, None, None, None, false)
  }

  /** What the refs keep true across events: timers act in the current
      direction, DAS is charged exactly while ARR repeats, the DAS timeout
      and the ARR interval are never both live, and intervals are at least 1 ms. */
  predicate Valid(h: HState)
  {
    && (h.dasTimer.Some? ==> h.currentDirection == Some(h.dasTimer.value.direction))
    && (h.arrTimer.Some? ==> h.currentDirection == Some(h.arrTimer.value.direction))
    && (h.dasCharged <==> h.arrTimer.Some?)
    && !(h.dasTimer.Some? && h.arrTimer.Some?)
    && (h.arrTimer.Some? ==> h.arrTimer.value.interval >= 1)
    && (h.softDropTimer.Some? ==> h.softDropTimer.value >= 1)
  }

  /** The new refs and the callbacks an event invoked, in order. */
  datatype Outcome = Outcome(state: HState, calls: seq<Callback>)

  // ------------------------------------------------------------ timers

  /** clearTimers: cancel all three timers and discharge DAS. */
  function Cleared(h: HState): (r: HState)
    ensures r.dasTimer.None? && r.arrTimer.None? && r.softDropTimer.None? && !r.dasCharged
    ensures r.keysPressed == h.keysPressed && r.currentDirection == h.currentDirection
    ensures Valid(r)
  {
    h.(dasTimer := None, arrTimer := None, softDropTimer := None, dasCharged := false)
  }

  /** The ARR period: `arr` ms, or 1 ms for instant (arr = 0). */
  function ArrInterval(arr: nat): (ms: nat)
    ensures ms >= 1
    ensures arr > 0 ==> ms == arr
    ensures arr == 0 ==> ms == 1
  {
    if arr == 0 then 1 else arr
  }

  /** The soft-drop period: 1 ms for instant, else max(1, floor(50 / sdf)). */
  function SoftDropInterval(sdf: Sdf): (ms: nat)
    ensures 1 <= ms <= 50
    ensures sdf.Factor? && sdf.n <= 50 ==> ms == 50 / sdf.n
    ensures sdf.Factor? && sdf.n > 50 ==> ms == 1
  {
    if sdf.Instant? then 1
    else if 50 / sdf.n > 1 then 50 / sdf.n else 1
  }

  /** A faster soft drop factor never gives a longer period. */
  lemma SoftDropIntervalMonotone(a: Multiplier, b: Multiplier)
    requires a <= b
    ensures SoftDropInterval(Factor(b)) <= SoftDropInterval(Factor(a))
  {
    assert 50 / b <= 50 / a by {
      DivMonotone(50, a, b);
    }
  }

  lemma DivMonotone(n: nat, a: nat, b: nat)
    requires 1 <= a <= b
    ensures n / b <= n / a
  {
    var q, p := n / b, n / a;
    MulMonotone(q, a, b);
    if q > p {
      MulMonotone(a, p + 1, q);
      assert false;
    }
  }

  lemma {:induction false} MulMonotone(x: nat, a: nat, b: nat)
    requires a <= b
    ensures x * a <= x * b
    ensures a * x <= b * x
  {
    if x > 0 {
      MulMonotone(x - 1, a, b);
      assert x * a == (x - 1) * a + a;
      assert x * b == (x - 1) * b + b;
    }
  }

  /** startDAS: one immediate move, the direction taken over, DAS
      discharged, old DAS and ARR timers cancelled, and a new DAS timeout of
      das, plus dcd when a different direction was current. */
  function DasStarted(h: HState, s: PlayerSettings, d: Direction): (r: Outcome)
    ensures r.calls == [MoveCallback(d)]
    ensures r.state.currentDirection == Some(d) && !r.state.dasCharged && r.state.arrTimer.None?
    ensures r.state.dasTimer == Some(DasTimer(
      if h.currentDirection.Some? && h.currentDirection != Some(d) then s.das + s.dcd else s.das, d))
    ensures r.state.keysPressed == h.keysPressed && r.state.softDropTimer == h.softDropTimer
    ensures Valid(h) ==> Valid(r.state)
  {
    var delay := if h.currentDirection.Some? && h.currentDirection.value != d then s.dcd else 0;
    Outcome(h.(currentDirection := Some(d), dasCharged := false, dasTimer := Some(DasTimer(s.das + delay, d)), arrTimer := None),
            [MoveCallback(d)])
  }

  /** startSoftDrop: one immediate soft drop and a (re)started repeat. */
  function SoftDropStarted(h: HState, s: PlayerSettings): (r: Outcome)
    ensures r.calls == [OnSoftDrop]
    ensures r.state == h.(softDropTimer := Some(SoftDropInterval(s.sdf)))
    ensures Valid(h) ==> Valid(r.state)
  {
    Outcome(h.(softDropTimer := Some(SoftDropInterval(s.sdf))), [OnSoftDrop])
  }

  /** The DAS timeout elapses: DAS is charged and ARR starts repeating the
      move; no move is issued at this moment. */
  function DasTimeout(h: HState, s: PlayerSettings): (r: Outcome)
    ensures h.dasTimer.None? ==> r == Outcome(h, [])
    ensures h.dasTimer.Some? ==>
      r.calls == [] && r.state.dasCharged && r.state.dasTimer.None? &&
      r.state.arrTimer == Some(ArrTimer(ArrInterval(s.arr), h.dasTimer.value.direction))
    ensures Valid(h) ==> Valid(r.state)
  {
    if h.dasTimer.None? then Outcome(h, [])
    else Outcome(h.(dasTimer := None, dasCharged := true, arrTimer := Some(ArrTimer(ArrInterval(s.arr), h.dasTimer.value.direction))), [])
  }

  /** One ARR period elapses: the move is repeated. */
  function ArrTick(h: HState): (r: Outcome)
    ensures r.state == h
    ensures r.calls == if h.arrTimer.Some? then [MoveCallback(h.arrTimer.value.direction)] else []
  {
    if h.arrTimer.Some? then Outcome(h, [MoveCallback(h.arrTimer.value.direction)]) else Outcome(h, [])
  }

  /** While DAS is charged, ARR moves in the direction currently held. */
  lemma ArrMovesCurrentDirection(h: HState)
    requires Valid(h) && h.dasCharged
    ensures ArrTick(h).calls == [MoveCallback(h.currentDirection.value)]
  {
  }

  /** One soft-drop period elapses: another soft drop. */
  function SoftDropTick(h: HState): (r: Outcome)
    ensures r.state == h
    ensures r.calls == if h.softDropTimer.Some? then [OnSoftDrop] else []
  {
    if h.softDropTimer.Some? then Outcome(h, [OnSoftDrop]) else Outcome(h, [])
  }

  // ------------------------------------------------------------ events

  /** handleKeyDown. The pause action toggles pause whenever the game is
      playing, also while paused; everything else needs playing and not
      paused, and a key already held is ignored. */
  function KeyDown(h: HState, s: PlayerSettings, isPlaying: bool, isPaused: bool, key: string): (r: Outcome)
    ensures ActionFor(Entries(s.keyBindings), key) == Some(Pause) && isPlaying ==> r == Outcome(h, [OnPause])
    ensures !(ActionFor(Entries(s.keyBindings), key) == Some(Pause) && isPlaying) && (!isPlaying || isPaused || key in h.keysPressed)
      ==> r == Outcome(h, [])
    ensures var a := ActionFor(Entries(s.keyBindings), key);
      var h1 := h.(keysPressed := h.keysPressed + {key});
      isPlaying && !isPaused && key !in h.keysPressed && a != Some(Pause) ==>
        && (a.None? ==> r == Outcome(h1, []))
        && (a == Some(MoveLeft) ==> r == DasStarted(h1, s, Left))
        && (a == Some(MoveRight) ==> r == DasStarted(h1, s, Right))
        && (a == Some(SoftDrop) ==> r == SoftDropStarted(h1, s))
        && (a == Some(HardDrop) ==> r == Outcome(h1, [OnHardDrop]))
        && (a == Some(RotateCW) ==> r == Outcome(h1, [if s.primaryRotation == Some(Cw) then OnRotateCW else OnRotateCCW]))
        && (a == Some(RotateCCW) ==> r == Outcome(h1, [if s.primaryRotation == Some(Cw) then OnRotateCCW else OnRotateCW]))
        && (a == Some(Rotate180) ==> r == Outcome(h1, [OnRotate180]))
        && (a == Some(Hold) ==> r == Outcome(h1, [OnHold]))
    ensures r.state.keysPressed == h.keysPressed || r.state.keysPressed == h.keysPressed + {key}
    ensures |r.calls| <= 1
    ensures Valid(h) ==> Valid(r.state)
  {
    var action := ActionFor(Entries(s.keyBindings), key);
    if action == Some(Pause) && isPlaying then Outcome(h, [OnPause])
    else if !isPlaying || isPaused then Outcome(h, [])
    else if key in h.keysPressed then Outcome(h, [])
    else
      var h1 := h.(keysPressed := h.keysPressed + {key});
      if action.None? then Outcome(h1, [])
      else match action.value
        case MoveLeft => DasStarted(h1, s, Left)
        case MoveRight => DasStarted(h1, s, Right)
        case SoftDrop => SoftDropStarted(h1, s)
        case HardDrop => Outcome(h1, [OnHardDrop])
        case RotateCW => Outcome(h1, [if s.primaryRotation == Some(Cw) then OnRotateCW else OnRotateCCW])
        case RotateCCW => Outcome(h1, [if s.primaryRotation == Some(Cw) then OnRotateCCW else OnRotateCW])
        case Rotate180 => Outcome(h1, [OnRotate180])
        case Hold => Outcome(h1, [OnHold])
        case Pause => Outcome(h1, [])
  }

  /** A key accepted by a keydown is held, so the browser's auto-repeat
      keydowns for it are ignored until it is released. */
  lemma AutoRepeatIgnored(h: HState, s: PlayerSettings, key: string)
    requires ActionFor(Entries(s.keyBindings), key) != Some(Pause)
    ensures key in KeyDown(h, s, true, false, key).state.keysPressed
    ensures KeyDown(KeyDown(h, s, true, false, key).state, s, true, false, key) == Outcome(KeyDown(h, s, true, false, key).state, [])
  {
  }

  /** The rotation bindings call CW and CCW as named only when the
      preference is explicitly 'cw'; otherwise the two are swapped. */
  lemma RotationMapping(h: HState, s: PlayerSettings, key: string)
    requires key !in h.keysPressed
    ensures ActionFor(Entries(s.keyBindings), key) == Some(RotateCW) ==>
      KeyDown(h, s, true, false, key).calls == [if s.primaryRotation == Some(Cw) then OnRotateCW else OnRotateCCW]
    ensures ActionFor(Entries(s.keyBindings), key) == Some(RotateCCW) ==>
      KeyDown(h, s, true, false, key).calls == [if s.primaryRotation == Some(Cw) then OnRotateCCW else OnRotateCW]
  {
  }

  /** handleKeyUp: release the key; a released direction hands over to the
      opposite direction if its bound key is still held, otherwise stops
      DAS and ARR; releasing soft drop cancels only the soft-drop repeat. */
  function KeyUp(h: HState, s: PlayerSettings, key: string): (r: Outcome)
    ensures r.state.keysPressed == h.keysPressed - {key}
    ensures Valid(h) ==> Valid(r.state)
  {
    var h1 := h.(keysPressed := h.keysPressed - {key});
    var action := ActionFor(Entries(s.keyBindings), key);
    var moved :=
      if action == Some(MoveLeft) || action == Some(MoveRight) then
        var leftHeld := s.keyBindings.moveLeft in h1.keysPressed;
        var rightHeld := s.keyBindings.moveRight in h1.keysPressed;
        if action == Some(MoveLeft) && rightHeld then DasStarted(h1, s, Right)
        else if action == Some(MoveRight) && leftHeld then DasStarted(h1, s, Left)
        else Outcome(h1.(dasTimer := None, arrTimer := None, currentDirection := None, dasCharged := false), [])
      else Outcome(h1, []);
    if action == Some(SoftDrop) then Outcome(moved.state.(softDropTimer := None), moved.calls) else moved
  }

  /** The three cases of releasing a key. */
  lemma KeyUpCases(h: HState, s: PlayerSettings, key: string)
    ensures var action := ActionFor(Entries(s.keyBindings), key);
      var h1 := h.(keysPressed := h.keysPressed - {key});
      && (action == Some(MoveLeft) && s.keyBindings.moveRight in h1.keysPressed ==>
            KeyUp(h, s, key) == DasStarted(h1, s, Right))
      && (action == Some(MoveRight) && s.keyBindings.moveLeft in h1.keysPressed ==>
            KeyUp(h, s, key) == DasStarted(h1, s, Left))
      && ((action == Some(MoveLeft) && s.keyBindings.moveRight !in h1.keysPressed) ||
          (action == Some(MoveRight) && s.keyBindings.moveLeft !in h1.keysPressed) ==>
            KeyUp(h, s, key) == Outcome(h1.(dasTimer := None, arrTimer := None, currentDirection := None, dasCharged := false), []))
      && (action == Some(SoftDrop) ==> KeyUp(h, s, key) == Outcome(h1.(softDropTimer := None), []))
      && (action != Some(MoveLeft) && action != Some(MoveRight) && action != Some(SoftDrop) ==>
            KeyUp(h, s, key) == Outcome(h1, []))
  {
  }

  /** Releasing a direction while the opposite one is held issues a move
      in the opposite direction even when that direction is already the
      current one. */
  lemma HandOverMovesAgain(h: HState, s: PlayerSettings, key: string)
    requires ActionFor(Entries(s.keyBindings), key) == Some(MoveLeft)
    requires s.keyBindings.moveRight in h.keysPressed - {key}
    ensures KeyUp(h, s, key).calls == [OnMoveRight]
    ensures KeyUp(h, s, key).state.currentDirection == Some(Right)
  {
  }

  /** handleBlur: forget held keys, clear the timers and the direction. */
  function Blur(h: HState): (r: Outcome)
    ensures r.calls == [] && r.state == Idle()
  {
    Outcome(Cleared(h).(keysPressed := {}, currentDirection := None), [])
  }

  /** New isPlaying / isPaused props. When either differs from the props
      the hook saw before, the listener effect's cleanup clears the timers,
      and the pause/game-end effect then also forgets the held keys and the
      direction when not playing or paused; when neither differs, neither
      effect runs. */
  function PlayStateChanged(h: HState, wasPlaying: bool, wasPaused: bool, isPlaying: bool, isPaused: bool): (r: Outcome)
    ensures r.calls == []
    ensures wasPlaying == isPlaying && wasPaused == isPaused ==> r.state == h
    ensures wasPlaying != isPlaying || wasPaused != isPaused ==>
      && r.state.dasTimer.None? && r.state.arrTimer.None? && r.state.softDropTimer.None? && !r.state.dasCharged
      && (!isPlaying || isPaused ==> r.state == Idle())
      && (isPlaying && !isPaused ==> r.state == Cleared(h))
    ensures Valid(h) ==> Valid(r.state)
  {
    if wasPlaying == isPlaying && wasPaused == isPaused then Outcome(h, [])
    else
      var cleared := Cleared(h);
      if !isPlaying || isPaused then Outcome(cleared.(keysPressed := {}, currentDirection := None), [])
      else Outcome(cleared, [])
  }

  /** New settings props. Every setting is a dependency of the listener
      effect (through getActionForKey, startDAS, startARR, startSoftDrop
      and primaryRotation), so a changed value re-subscribes the listeners
      and the cleanup clears the timers; the same settings change nothing. */
  function SettingsChanged(h: HState, was: PlayerSettings, now: PlayerSettings): (r: Outcome)
    ensures r.calls == []
    ensures was == now ==> r.state == h
    ensures was != now ==> r.state == Cleared(h)
  {
    if was == now then Outcome(h, []) else Outcome(Cleared(h), [])
  }

  /** A render that leaves isPlaying and isPaused as they were keeps a
      running auto-repeat: the ARR timer still ticks in its direction. */
  lemma SamePlayStateKeepsRepeat(h: HState, isPlaying: bool, isPaused: bool)
    requires h.arrTimer.Some?
    ensures ArrTick(PlayStateChanged(h, isPlaying, isPaused, isPlaying, isPaused).state).calls == [MoveCallback(h.arrTimer.value.direction)]
  {
  }

  /** While paused or not playing, no event but the pause key and the
      already-pending timers' ticks produces a callback; after the play
      state change those timers are gone. */
  lemma NothingWhilePaused(h: HState, s: PlayerSettings, wasPlaying: bool, wasPaused: bool, isPlaying: bool, key: string)
    requires !isPlaying || ActionFor(Entries(s.keyBindings), key) != Some(Pause)
    requires wasPlaying != isPlaying || !wasPaused
    ensures KeyDown(PlayStateChanged(h, wasPlaying, wasPaused, isPlaying, true).state, s, isPlaying, true, key).calls == []
    ensures ArrTick(PlayStateChanged(h, wasPlaying, wasPaused, isPlaying, true).state).calls == []
    ensures SoftDropTick(PlayStateChanged(h, wasPlaying, wasPaused, isPlaying, true).state).calls == []
    ensures DasTimeout(PlayStateChanged(h, wasPlaying, wasPaused, isPlaying, true).state, s).calls == []
  {
  }

  // ------------------------------------------------------------- class

  /** The hook instance: its refs as fields, the props it currently sees,
      and the callbacks it has invoked so far. */
  class Handler {
    var keysPressed: set<string>
    var dasTimer: Option<DasTimer>
    var arrTimer: Option<ArrTimer>
    var softDropTimer: Option<nat>
    var currentDirection: Option<Direction>
    var dasCharged: bool
    var settings: PlayerSettings
    var isPlaying: bool
    var isPaused: bool
    var issued: seq<Callback>

    function State(): HState
      reads this
    {
      HState(keysPressed, dasTimer, arrTimer, softDropTimer, currentDirection, dasCharged)
    }

    predicate Props(s: PlayerSettings, playing: bool, paused: bool)
      reads this
    {
      settings == s && isPlaying == playing && isPaused == paused
    }

    constructor(s: PlayerSettings, playing: bool, paused: bool)
      ensures State() == Idle() && Props(s, playing, paused) && issued == []
    {
      keysPressed := {};
      dasTimer := None;
      arrTimer := None;
      softDropTimer := None;
      currentDirection := None;
      dasCharged := false;
      settings := s;
      isPlaying := playing;
      isPaused := paused;
      issued := [];
    }

    method ClearTimers()
      modifies this
      ensures State() == Cleared(old(State()))
      ensures Props(old(settings), old(isPlaying), old(isPaused)) && issued == old(issued)
    {
      dasTimer := None;
      arrTimer := None;
      softDropTimer := None;
      dasCharged := false;
    }

    method StartArr(d: Direction)
      modifies this
      ensures State() == old(State()).(arrTimer := Some(ArrTimer(ArrInterval(settings.arr), d)))
      ensures Props(old(settings), old(isPlaying), old(isPaused)) && issued == old(issued)
    {
      if settings.arr == 0 {
        arrTimer := Some(ArrTimer(1, d));
      } else {
        arrTimer := Some(ArrTimer(settings.arr, d));
      }
    }

    method StartDas(d: Direction)
      modifies this
      ensures State() == DasStarted(old(State()), settings, d).state
      ensures issued == old(issued) + DasStarted(old(State()), settings, d).calls
      ensures Props(old(settings), old(isPlaying), old(isPaused))
    {
      var delay := if currentDirection.Some? && currentDirection.value != d then settings.dcd else 0;
      currentDirection := Some(d);
      dasCharged := false;
      dasTimer := None;
      arrTimer := None;
      issued := issued + [MoveCallback(d)];
      dasTimer := Some(DasTimer(settings.das + delay, d));
    }

    method StartSoftDrop()
      modifies this
      ensures State() == SoftDropStarted(old(State()), settings).state
      ensures issued == old(issued) + SoftDropStarted(old(State()), settings).calls
      ensures Props(old(settings), old(isPlaying), old(isPaused))
    {
      if settings.sdf.Instant? {
        softDropTimer := Some(1);
      } else {
        var interval := if 50 / settings.sdf.n > 1 then 50 / settings.sdf.n else 1;
        softDropTimer := Some(interval);
      }
      issued := issued + [OnSoftDrop];
    }

    method HandleKeyDown(key: string)
      modifies this
      ensures State() == KeyDown(old(State()), settings, isPlaying, isPaused, key).state
      ensures issued == old(issued) + KeyDown(old(State()), settings, isPlaying, isPaused, key).calls
      ensures Props(old(settings), old(isPlaying), old(isPaused))
    {
      var action := GetActionForKey(settings.keyBindings, key);
      if action == Some(Pause) && isPlaying {
        issued := issued + [OnPause];
        return;
      }
      if !isPlaying || isPaused {
        return;
      }
      if key in keysPressed {
        return;
      }
      keysPressed := keysPressed + {key};
      if action.None? {
        return;
      }
      match action.value {
        case MoveLeft => StartDas(Left);
        case MoveRight => StartDas(Right);
        case SoftDrop => StartSoftDrop();
        case HardDrop => issued := issued + [OnHardDrop];
        case RotateCW =>
          if settings.primaryRotation == Some(Cw) { issued := issued + [OnRotateCW]; }
          else { issued := issued + [OnRotateCCW]; }
        case RotateCCW =>
          if settings.primaryRotation == Some(Cw) { issued := issued + [OnRotateCCW]; }
          else { issued := issued + [OnRotateCW]; }
        case Rotate180 => issued := issued + [OnRotate180];
        case Hold => issued := issued + [OnHold];
        case Pause =>
      }
    }

    method HandleKeyUp(key: string)
      modifies this
      ensures State() == KeyUp(old(State()), settings, key).state
      ensures issued == old(issued) + KeyUp(old(State()), settings, key).calls
      ensures Props(old(settings), old(isPlaying), old(isPaused))
    {
      keysPressed := keysPressed - {key};
      var action := GetActionForKey(settings.keyBindings, key);
      if action == Some(MoveLeft) || action == Some(MoveRight) {
        var leftHeld := settings.keyBindings.moveLeft in keysPressed;
        var rightHeld := settings.keyBindings.moveRight in keysPressed;
        if action == Some(MoveLeft) && rightHeld {
          StartDas(Right);
        } else if action == Some(MoveRight) && leftHeld {
          StartDas(Left);
        } else {
          dasTimer := None;
          arrTimer := None;
          currentDirection := None;
          dasCharged := false;
        }
      }
      if action == Some(SoftDrop) {
        softDropTimer := None;
      }
    }

    method HandleBlur()
      modifies this
      ensures State() == Blur(old(State())).state
      ensures issued == old(issued) + Blur(old(State())).calls
      ensures Props(old(settings), old(isPlaying), old(isPaused))
    {
      keysPressed := {};
      ClearTimers();
      currentDirection := None;
    }

    method DasElapsed()
      modifies this
      ensures State() == DasTimeout(old(State()), settings).state
      ensures issued == old(issued) + DasTimeout(old(State()), settings).calls
      ensures Props(old(settings), old(isPlaying), old(isPaused))
    {
      if dasTimer.Some? {
        var d := dasTimer.value.direction;
        dasTimer := None;
        dasCharged := true;
        StartArr(d);
      }
    }

    method ArrElapsed()
      modifies this
      ensures State() == old(State())
      ensures issued == old(issued) + ArrTick(old(State())).calls
      ensures Props(old(settings), old(isPlaying), old(isPaused))
    {
      if arrTimer.Some? {
        issued := issued + [MoveCallback(arrTimer.value.direction)];
      }
    }

    method SoftDropElapsed()
      modifies this
      ensures State() == old(State())
      ensures issued == old(issued) + SoftDropTick(old(State())).calls
      ensures Props(old(settings), old(isPlaying), old(isPaused))
    {
      if softDropTimer.Some? {
        issued := issued + [OnSoftDrop];
      }
    }

    /** New isPlaying / isPaused props. */
    method SetPlayState(playing: bool, paused: bool)
      modifies this
      ensures State() == PlayStateChanged(old(State()), old(isPlaying), old(isPaused), playing, paused).state
      ensures Props(old(settings), playing, paused) && issued == old(issued)
    {
      if playing == isPlaying && paused == isPaused {
        return;
      }
      isPlaying := playing;
      isPaused := paused;
      ClearTimers();
      if !isPlaying || isPaused {
        ClearTimers();
        keysPressed := {};
        currentDirection := None;
      }
    }

    /** New settings props. */
    method SetSettings(s: PlayerSettings)
      modifies this
      ensures State() == SettingsChanged(old(State()), old(settings), s).state
      ensures Props(s, old(isPlaying), old(isPaused)) && issued == old(issued)
    {
      if s == settings {
        return;
      }
      settings := s;
      ClearTimers();
    }
  }
}
