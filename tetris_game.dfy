/** The game screen: its copy of the key formatter for the controls
    panel, and the guard that reports a finished game's score once. */
module TetrisGame {
  import opened Wrappers
  import opened Text
  import Tetris
  import KeyboardMapper
  import Settings
  import InputHandler

  /** The screen's own formatKey, a copy of the mapper's: the two agree
      on every key. */
  function FormatKey(key: string): (shown: string)
    ensures shown == KeyboardMapper.FormatKey(key)
  {
    if key == " " then "Space"
    else if key == "ArrowUp" then "↑"
    else if key == "ArrowDown" then "↓"
    else if key == "ArrowLeft" then "←"
    else if key == "ArrowRight" then "→"
    else if |key| == 1 then Upper(key)
    else key
  }

  // -------------------------------------------------------- score guard

  /** What the screen's effects see on a render. */
  datatype Snapshot = Snapshot(isPlaying: bool, isGameOver: bool, score: nat, level: nat, lines: nat, signedIn: bool)

  /** A report of a finished game: onGameOver(score, level, lines), and
      whether saveHighScore was also called (only for a signed-in user). */
  datatype Report = Report(score: nat, level: nat, lines: nat, saved: bool)

  function SnapshotOf(s: Tetris.GameState, signedIn: bool): Snapshot
  {
    Snapshot(s.isPlaying, s.isGameOver, s.score, s.level, s.lines, signedIn)
  }

  /** The reset effect's condition: a game in progress. */
  predicate IsReset(snap: Snapshot)
  {
    snap.isPlaying && !snap.isGameOver
  }

  /** The save effect's condition. */
  predicate Fires(submitted: bool, snap: Snapshot)
  {
    snap.isGameOver && !submitted && snap.score > 0
  }

  /** One render: the save effect, then the reset effect, on the flag. */
  function GuardStep(submitted: bool, snap: Snapshot): (r: (bool, Option<Report>))
    ensures r.1.Some? <==> Fires(submitted, snap)
    ensures r.1.Some? ==> r.1.value == Report(snap.score, snap.level, snap.lines, snap.signedIn) && r.0
    ensures IsReset(snap) ==> !r.0
    ensures !IsReset(snap) && !Fires(submitted, snap) ==> r.0 == submitted
  {
    var fire := snap.isGameOver && !submitted && snap.score > 0;
    var flag := submitted || fire;
    var report := if fire then Some(Report(snap.score, snap.level, snap.lines, snap.signedIn)) else None;
    if snap.isPlaying && !snap.isGameOver then (false, report) else (flag, report)
  }

  /** The flag after the first n renders. */
  function FlagAfter(submitted: bool, snaps: seq<Snapshot>, n: nat): bool
    requires n <= |snaps|
  {
    if n == 0 then submitted else GuardStep(FlagAfter(submitted, snaps, n - 1), snaps[n - 1]).0
  }

  /** The report of render i, if any. */
  predicate FiresAt(submitted: bool, snaps: seq<Snapshot>, i: nat)
    requires i < |snaps|
  {
    Fires(FlagAfter(submitted, snaps, i), snaps[i])
  }

  /** Once set, the flag stays set until a render with a game in progress. */
  lemma {:induction false} FlagStaysSet(submitted: bool, snaps: seq<Snapshot>, i: nat, j: nat)
    requires i <= j <= |snaps|
    requires FlagAfter(submitted, snaps, i)
    requires forall k :: i <= k < j ==> !IsReset(snaps[k])
    ensures FlagAfter(submitted, snaps, j)
    decreases j
  {
    if j > i {
      FlagStaysSet(submitted, snaps, i, j - 1);
    }
  }

  /** Between any two reports there is a render with a game in
      progress: a game is reported at most once. */
  lemma ReportedOncePerGame(submitted: bool, snaps: seq<Snapshot>, i: nat, j: nat)
    requires i < j < |snaps|
    requires FiresAt(submitted, snaps, i) && FiresAt(submitted, snaps, j)
    ensures exists k :: i < k < j && IsReset(snaps[k])
  {
    if forall k :: i < k < j ==> !IsReset(snaps[k]) {
      assert FlagAfter(submitted, snaps, i + 1);
      FlagStaysSet(submitted, snaps, i + 1, j);
      assert false;
    }
  }

  /** A render with a game in progress re-arms the guard, so the next
      finished game with a positive score is reported. */
  lemma ResetRearms(submitted: bool, playing: Snapshot, over: Snapshot)
    requires IsReset(playing) && over.isGameOver && over.score > 0
    ensures GuardStep(GuardStep(submitted, playing).0, over).1 == Some(Report(over.score, over.level, over.lines, over.signedIn))
  {
  }

  /** Starting a game re-arms the guard whatever its state. */
  lemma StartGameRearms(submitted: bool, first: Tetris.PieceType, next: Tetris.PieceType, signedIn: bool)
    ensures !GuardStep(submitted, SnapshotOf(Tetris.StartGame(first, next), signedIn)).0
  {
  }

  /** A score of zero is never reported. */
  lemma ZeroScoreNeverReported(submitted: bool, snap: Snapshot)
    requires snap.score == 0
    ensures GuardStep(submitted, snap).1.None?
  {
  }

  /** The screen's ref and the reports it has made. */
  class ScoreGuard {
    var hasSubmittedScore: bool
    var reports: seq<Report>

    constructor()
      ensures !hasSubmittedScore && reports == []
    {
      hasSubmittedScore := false;
      reports := [];
    }

    /** The two effects of one render, in order. */
    method Render(snap: Snapshot)
      modifies this
      ensures hasSubmittedScore == GuardStep(old(hasSubmittedScore), snap).0
      ensures reports == old(reports) + (if GuardStep(old(hasSubmittedScore), snap).1.Some? then [GuardStep(old(hasSubmittedScore), snap).1.value] else [])
    {
      if snap.isGameOver && !hasSubmittedScore && snap.score > 0 {
        hasSubmittedScore := true;
        reports := reports + [Report(snap.score, snap.level, snap.lines, snap.signedIn)];
      }
      if snap.isPlaying && !snap.isGameOver {
        hasSubmittedScore := false;
      }
    }
  }

  // -------------------------------------------------------- key routing

  /** The game command behind each input-hook callback as the screen wires
      them. useTetris returns no softDrop, rotateCCW or holdPiece and the
      screen passes no onRotate180, so those four callbacks are undefined:
      calling one throws after the hook has updated its refs, and the game
      state is untouched. */
  function Wired(c: InputHandler.Callback, drawn: Tetris.PieceType): (cmd: Option<Tetris.Command>)
    ensures cmd.None? <==> c in {InputHandler.OnSoftDrop, InputHandler.OnRotateCCW, InputHandler.OnRotate180, InputHandler.OnHold}
    ensures c == InputHandler.OnPause ==> cmd == Some(Tetris.TogglePauseCmd)
    ensures c == InputHandler.OnMoveLeft ==> cmd == Some(Tetris.MoveLeftCmd)
    ensures c == InputHandler.OnMoveRight ==> cmd == Some(Tetris.MoveRightCmd)
    ensures c == InputHandler.OnRotateCW ==> cmd == Some(Tetris.RotateCmd)
    ensures c == InputHandler.OnHardDrop ==> cmd == Some(Tetris.HardDropCmd(drawn))
  {
    match c
    case OnMoveLeft => Some(Tetris.MoveLeftCmd)
    case OnMoveRight => Some(Tetris.MoveRightCmd)
    case OnHardDrop => Some(Tetris.HardDropCmd(drawn))
    case OnRotateCW => Some(Tetris.RotateCmd)
    case OnPause => Some(Tetris.TogglePauseCmd)
    case _ => None
  }

  /** The commands a list of callbacks amounts to, in order. */
  function WiredCommands(calls: seq<InputHandler.Callback>, drawn: Tetris.PieceType): (cs: seq<Tetris.Command>)
    ensures |cs| <= |calls|
    ensures |calls| == 1 && Wired(calls[0], drawn).Some? ==> cs == [Wired(calls[0], drawn).value]
    decreases |calls|
  {
    if |calls| == 0 then []
    else (if Wired(calls[0], drawn).Some? then [Wired(calls[0], drawn).value] else []) + WiredCommands(calls[1..], drawn)
  }

  /** A keydown as the screen handles it. useTetris's own listener stays
      registered while the game is mounted and, added first, runs first;
      then the input hook's listener runs. Both change the game through
      functional state updates, so their commands apply one after the
      other. drawn1 and drawn2 are the types each listener's lock would
      draw. */
  function PressAsWritten(g: Tetris.GameState, h: InputHandler.HState, s: Settings.PlayerSettings, key: string,
                          drawn1: Tetris.PieceType, drawn2: Tetris.PieceType): (r: (InputHandler.HState, Tetris.GameState))
    requires Tetris.Inv(g)
    ensures Tetris.Inv(r.1)
    ensures r.0 == InputHandler.KeyDown(h, s, g.isPlaying, g.isPaused, key).state
  {
    var raw := Tetris.RawKeyCommand(g.isPlaying, key, drawn1);
    var hook := InputHandler.KeyDown(h, s, g.isPlaying, g.isPaused, key);
    (hook.state, Tetris.Run(g, (if raw.Some? then [raw.value] else []) + WiredCommands(hook.calls, drawn2)))
  }

  /** The first matching entry decides the action. */
  lemma {:induction false} FirstMatchAt(es: seq<(Settings.Action, string)>, key: string, k: nat)
    requires k < |es| && InputHandler.Matches(es[k].1, key)
    requires forall i :: 0 <= i < k ==> !InputHandler.Matches(es[i].1, key)
    ensures InputHandler.ActionFor(es, key) == Some(es[k].0)
  {
    if k > 0 {
      assert !InputHandler.Matches(es[0].1, key);
      FirstMatchAt(es[1..], key, k - 1);
    }
  }

  /** p and P are the default pause key. */
  lemma DefaultPauseKeys()
    ensures InputHandler.ActionFor(InputHandler.Entries(Settings.DefaultKeyBindings()), "p") == Some(Settings.Pause)
    ensures InputHandler.ActionFor(InputHandler.Entries(Settings.DefaultKeyBindings()), "P") == Some(Settings.Pause)
  {
    var es := InputHandler.Entries(Settings.DefaultKeyBindings());
    DefaultPauseKey(es, "p");
    DefaultPauseKey(es, "P");
  }

  /** One of p and P against the default entries: the seven entries before
      the pause entry do not match it, and the pause entry does. */
  lemma DefaultPauseKey(es: seq<(Settings.Action, string)>, key: string)
    requires es == InputHandler.Entries(Settings.DefaultKeyBindings())
    requires key == "p" || key == "P"
    ensures InputHandler.ActionFor(es, key) == Some(Settings.Pause)
  {
    assert |es| == 8;
    assert Lower(key)[0] == 'p' && |Lower(key)| == 1;
    assert Lower(" ")[0] == ' ' && Lower("z")[0] == 'z' && Lower("c")[0] == 'c';
    forall i | 0 <= i < 7 ensures !InputHandler.Matches(es[i].1, key) {
      if i == 3 || i == 5 || i == 6 {
        assert |es[i].1| == 1 && Lower(es[i].1)[0] != 'p';
      } else {
        assert |es[i].1| > 1;
        assert |Lower(es[i].1)| > 1;
      }
    }
    assert InputHandler.Matches(es[7].1, key);
    FirstMatchAt(es, key, 7);
  }

  /** As written, pressing p or P bound to pause while playing reaches
      togglePause twice, once through each listener, and the two toggles
      cancel: the key has no effect on the game. */
  lemma PauseKeyIgnoredAsWritten(g: Tetris.GameState, h: InputHandler.HState, s: Settings.PlayerSettings, key: string,
                                 drawn1: Tetris.PieceType, drawn2: Tetris.PieceType)
    requires Tetris.Inv(g) && g.isPlaying
    requires key == "p" || key == "P"
    requires InputHandler.ActionFor(InputHandler.Entries(s.keyBindings), key) == Some(Settings.Pause)
    ensures PressAsWritten(g, h, s, key, drawn1, drawn2).1 == g
  {
    var hook := InputHandler.KeyDown(h, s, g.isPlaying, g.isPaused, key);
    assert hook.calls == [InputHandler.OnPause];
    var cs := [Tetris.TogglePauseCmd] + WiredCommands(hook.calls, drawn2);
    assert cs == [Tetris.TogglePauseCmd, Tetris.TogglePauseCmd];
    var once := Tetris.Step(g, Tetris.TogglePauseCmd);
    assert Tetris.Run(g, cs) == Tetris.Run(once, cs[1..]);
    assert Tetris.Run(once, cs[1..]) == Tetris.Run(Tetris.Step(once, Tetris.TogglePauseCmd), []);
  }

  /** A keydown handled by the input hook's listener alone. */
  function Press(g: Tetris.GameState, h: InputHandler.HState, s: Settings.PlayerSettings, key: string,
                 drawn: Tetris.PieceType): (r: (InputHandler.HState, Tetris.GameState))
    requires Tetris.Inv(g)
    ensures Tetris.Inv(r.1)
    ensures r.0 == InputHandler.KeyDown(h, s, g.isPlaying, g.isPaused, key).state
  {
    var hook := InputHandler.KeyDown(h, s, g.isPlaying, g.isPaused, key);
    (hook.state, Tetris.Run(g, WiredCommands(hook.calls, drawn)))
  }

  /** With one listener the pause key pauses a running game and resumes a
      paused one, and changes nothing else. */
  lemma PauseKeyToggles(g: Tetris.GameState, h: InputHandler.HState, s: Settings.PlayerSettings, key: string,
                        drawn: Tetris.PieceType)
    requires Tetris.Inv(g) && g.isPlaying
    requires InputHandler.ActionFor(InputHandler.Entries(s.keyBindings), key) == Some(Settings.Pause)
    ensures Press(g, h, s, key, drawn).1 == Tetris.TogglePause(g)
    ensures Press(g, h, s, key, drawn).1.isPaused != g.isPaused
  {
    var hook := InputHandler.KeyDown(h, s, g.isPlaying, g.isPaused, key);
    assert hook.calls == [InputHandler.OnPause];
    var cs := WiredCommands(hook.calls, drawn);
    assert cs == [Tetris.TogglePauseCmd];
    assert Tetris.Run(g, cs) == Tetris.Run(Tetris.Step(g, Tetris.TogglePauseCmd), []);
  }
}
