/**
  pkg/cmd.go: the game-session controller. A typed command is trimmed and
  dispatched: a keyword (back, save, image, fen, reset, resign, hint, quit)
  or else a move. Engines choose moves for the side to move and give hints.

  The chess.Game the Go code updates in place (Resign, MoveStr, Move) is a
  value here: every operation returns the updated game, which is what the
  caller stores back. The engines, the chess rules and the two file writers
  are oracles in a `Host` value.
 */
module Session {
  import opened Wrappers
  import opened Text
  import opened Records
  import opened Chess

  /** UCIState: the engine processes and the configurations of the three roles. */
  datatype UciState = UciState(
    uciWhite: EngineHandle,
    uciBlack: EngineHandle,
    uciHint: EngineHandle,
    cfgWhite: UciEngine,
    cfgBlack: UciEngine,
    cfgHint: UciEngine)

  /**
    A `go` request: the search depth, the move time in nanoseconds (a Go
    time.Duration) and the configured search-move text when there is one.
   */
  datatype GoCmd = GoCmd(depth: int, moveTime: int, searchMoves: Option<string>)

  /** What `eng.Run(position, go)` leaves behind: a failure, or the engine's best move. */
  datatype EngineReply = RunFailed | Finished(bestMove: Move)

  /** The outside world the controller talks to. */
  datatype Host = Host(
    rules: Rules,
    search: (EngineHandle, Game, GoCmd) -> EngineReply,  // position + go, then SearchResults
    saveGame: Game -> string,                            // saveGame: writes the PGN, returns the message
    saveImage: Game -> string)                           // saveImage: writes the SVG, returns the message

  /** time.Millisecond in nanoseconds. */
  const Millisecond := 1_000_000

  const EngineCommandError := "\U{26A0} Error. Engine command."
  const EngineMoveError := "\U{26A0} Error. Engine move."
  const IllegalMove := "\U{26A0} Illegal. Try again."

  /** The cleared status label after an engine move (32 spaces) and after a command (80 spaces). */
  const EngineLabel := Repeat(' ', 32)
  const CommandLabel := Repeat(' ', 80)

  /** selectEngine: the engine and configuration of the side to move. */
  function SelectEngine(game: Game, us: UciState): (res: (EngineHandle, UciEngine))
    ensures res == (us.uciWhite, us.cfgWhite) <== Turn(game) == White
    ensures res == (us.uciBlack, us.cfgBlack) <== Turn(game) == Black
  {
    if Turn(game) == White then (us.uciWhite, us.cfgWhite) else (us.uciBlack, us.cfgBlack)
  }

  /** The `go` request built from an engine configuration (depth, move time in ms, search moves if set). */
  function SearchRequest(cfg: UciEngine): (cmd: GoCmd)
    ensures cmd.depth == cfg.depth && cmd.moveTime == cfg.moveTime * Millisecond
    ensures cmd.searchMoves.Some? <==> cfg.searchMoves != ""
    ensures cmd.searchMoves.Some? ==> cmd.searchMoves.value == cfg.searchMoves
  {
    GoCmd(cfg.depth, cfg.moveTime * Millisecond, if cfg.searchMoves != "" then Some(cfg.searchMoves) else None)
  }

  /**
    EngMove: asks the engine of the side to move for its best move and plays
    it. A failed run or a move the position rejects leaves the game as it
    was and reports which; success appends exactly the engine's move.
   */
  function EngMove(host: Host, game: Game, us: UciState): (res: (string, Game))
    ensures var (eng, cfg) := SelectEngine(game, us);
      var reply := host.search(eng, game, SearchRequest(cfg));
      && (res.0 == EngineCommandError <==> reply.RunFailed?)
      && (res.0 == EngineMoveError <==> reply.Finished? && !host.rules.legal(game, reply.bestMove))
      && (res.0 == EngineLabel <==> reply.Finished? && host.rules.legal(game, reply.bestMove))
      && (res.0 != EngineLabel ==> res.1 == game)
      && (res.0 == EngineLabel ==> res.1.moves == game.moves + [reply.bestMove])
  {
    var (eng, engCfg) := SelectEngine(game, us);
    var reply := host.search(eng, game, SearchRequest(engCfg));
    if reply.RunFailed? then (EngineCommandError, game)
    else
      match ApplyMove(host.rules, game, reply.bestMove)
      case None => (EngineMoveError, game)
      case Some(g) => (EngineLabel, g)
  }

  // ---------------------------------------------------------------------------
  // Undo

  /** newGame.Move(m) with its error ignored: an illegal move leaves the game as it is. */
  function Step(rules: Rules, g: Game, m: Move): (r: Game)
    ensures rules.legal(g, m) ==> r.moves == g.moves + [m]
    ensures !rules.legal(g, m) ==> r == g
  {
    match ApplyMove(rules, g, m)
    case None => g
    case Some(g') => g'
  }

  /** The game reached by stepping through the moves in order from g. */
  function Replay(rules: Rules, g: Game, moves: seq<Move>): Game
  {
    if moves == [] then g else Step(rules, Replay(rules, g, moves[..|moves| - 1]), moves[|moves| - 1])
  }

  /** The number of moves undoMove keeps: all but the last two, none when there are fewer than two. */
  function Kept(n: nat): (k: nat)
    ensures k <= n && (n >= 2 ==> k == n - 2) && (n < 2 ==> k == 0)
  {
    if n < 2 then 0 else n - 2
  }

  /** undoMove: replays all but the last two moves on a fresh standard game. */
  method UndoMove(rules: Rules, game: Game) returns (newGame: Game)
    ensures newGame == Replay(rules, NewGame(), game.moves[..Kept(|game.moves|)])
  {
    newGame := NewGame();
    var moves := game.moves;
    var i := 0;
    while i < |moves| - 2
      invariant 0 <= i <= Kept(|moves|)
      invariant newGame == Replay(rules, NewGame(), moves[..i])
    {
      var move := moves[i];
      assert moves[..i + 1][..i] == moves[..i];
      newGame := Step(rules, newGame, move);
      i := i + 1;
    }
  }

  /** A line of moves each of which is legal where it is played, from the standard start. */
  ghost predicate LegalLine(rules: Rules, moves: seq<Move>)
  {
    moves == [] ||
    (LegalLine(rules, moves[..|moves| - 1])
     && rules.legal(Replay(rules, NewGame(), moves[..|moves| - 1]), moves[|moves| - 1]))
  }

  /** Replaying a legal line from the standard start plays every one of its moves. */
  lemma {:induction false} ReplayLegalLine(rules: Rules, moves: seq<Move>)
    requires LegalLine(rules, moves)
    ensures Replay(rules, NewGame(), moves).moves == moves
  {
    if moves != [] {
      ReplayLegalLine(rules, moves[..|moves| - 1]);
      assert moves[..|moves| - 1] + [moves[|moves| - 1]] == moves;
    }
  }

  /** Every prefix of a legal line is a legal line. */
  lemma {:induction false} LegalLinePrefix(rules: Rules, moves: seq<Move>, k: nat)
    requires LegalLine(rules, moves) && k <= |moves|
    ensures LegalLine(rules, moves[..k])
    decreases |moves|
  {
    if k < |moves| {
      LegalLinePrefix(rules, moves[..|moves| - 1], k);
      assert moves[..|moves| - 1][..k] == moves[..k];
    } else {
      assert moves[..k] == moves;
    }
  }

  /**
    Undo on a game played from the standard start: the result is that game
    two plies earlier (a fresh game when it had fewer than two moves).
   */
  lemma UndoPlayedGame(rules: Rules, game: Game)
    requires LegalLine(rules, game.moves)
    ensures var undone := Replay(rules, NewGame(), game.moves[..Kept(|game.moves|)]);
      undone.moves == game.moves[..Kept(|game.moves|)] && undone.start == StandardFen && undone.first == White
  {
    var kept := game.moves[..Kept(|game.moves|)];
    LegalLinePrefix(rules, game.moves, Kept(|game.moves|));
    ReplayLegalLine(rules, kept);
    ReplayKeepsStart(rules, NewGame(), kept);
  }

  /** Replay never changes where a game started. */
  lemma {:induction false} ReplayKeepsStart(rules: Rules, g: Game, moves: seq<Move>)
    ensures Replay(rules, g, moves).start == g.start && Replay(rules, g, moves).first == g.first
  {
    if moves != [] {
      ReplayKeepsStart(rules, g, moves[..|moves| - 1]);
    }
  }

  /** With fewer than two moves, undo gives a fresh game with no moves. */
  lemma UndoShortGame(rules: Rules, game: Game)
    requires |game.moves| < 2
    ensures Replay(rules, NewGame(), game.moves[..Kept(|game.moves|)]) == NewGame()
  {
    assert game.moves[..0] == [];
  }

  // ---------------------------------------------------------------------------
  // Commands

  /** resetGame: a fresh standard game, whatever the game was. */
  function ResetGame(game: Game): (g: Game)
    ensures g == NewGame() && g.moves == []
  {
    NewGame()
  }

  /**
    resign: the side to move resigns; the move list is untouched, and a game
    that already has an outcome is left as it is.
   */
  function ResignGame(game: Game): (g: Game)
    ensures g.moves == game.moves && g.start == game.start && g.first == game.first
    ensures game.outcome != NoOutcome ==> g == game
    ensures game.outcome == NoOutcome ==>
      g.ending == Resignation && g.outcome == (if Turn(game) == White then BlackWon else WhiteWon)
  {
    Resign(game, Turn(game))
  }

  /** quit: the message that tells the event loop to stop. */
  function Quit(): (msg: string)
    ensures msg == "quit"
  {
    "quit"
  }

  /**
    hint: asks the hint engine for a best move in the current position. The
    best move becomes the hint and the label is cleared; a failed run leaves
    the hint as it was. The game is never changed.
   */
  function HintCmd(host: Host, game: Game, us: UciState, hint: Option<Move>): (res: (string, Option<Move>))
    ensures var reply := host.search(us.uciHint, game, SearchRequest(us.cfgHint));
      && (reply.RunFailed? ==> res == (EngineCommandError, hint))
      && (reply.Finished? ==> res == (CommandLabel, Some(reply.bestMove)))
  {
    match host.search(us.uciHint, game, SearchRequest(us.cfgHint))
    case RunFailed => (EngineCommandError, hint)
    case Finished(best) => (CommandLabel, Some(best))
  }

  /** The words ProcessCmd recognises, after trimming, matched exactly and case-sensitively. */
  datatype Command = Back | Save | Image | Fen | Reset | ResignCmd | HintReq | QuitCmd | MoveText(text: string)

  const Keywords: seq<string> := ["back", "save", "image", "fen", "reset", "resign", "hint", "quit"]

  /** The command each keyword names, position by position. */
  const KeywordCommands: seq<Command> := [Back, Save, Image, Fen, Reset, ResignCmd, HintReq, QuitCmd]

  /** How ProcessCmd reads a trimmed line: a keyword, or else a move text. */
  function Classify(t: string): (c: Command)
    ensures c.MoveText? <==> t !in Keywords
    ensures c.MoveText? ==> c.text == t
    ensures forall i :: 0 <= i < |Keywords| ==> (t == Keywords[i] <==> c == KeywordCommands[i])
  {
    if t == "back" then Back
    else if t == "save" then Save
    else if t == "image" then Image
    else if t == "fen" then Fen
    else if t == "reset" then Reset
    else if t == "resign" then ResignCmd
    else if t == "hint" then HintReq
    else if t == "quit" then QuitCmd
    else MoveText(t)
  }

  /** Surrounding blanks do not matter: " back\n" is the undo command. */
  lemma PaddedKeyword()
    ensures Classify(TrimSpace(" back\n")) == Back
  {
    TrimPadded();
  }

  lemma TrimPadded()
    ensures TrimSpace(" back\n") == "back"
  {
    TrimPaddedLeft();
    TrimPaddedRight();
  }

  lemma TrimPaddedLeft()
    ensures TrimLeft(" back\n") == "back\n"
  {
    var padded := " back\n";
    assert IsSpace(padded[0]) && !IsSpace(padded[1]);
    assert padded[1..] == "back\n";
  }

  lemma TrimPaddedRight()
    ensures TrimRight("back\n") == "back"
  {
    var left := "back\n";
    assert IsSpace(left[4]) && !IsSpace(left[3]);
    assert left[..4] == "back";
  }

  /** Keywords are case-sensitive: "Back" is tried as a move. */
  lemma CapitalisedKeyword()
    ensures Classify(TrimSpace("Back")) == MoveText("Back")
  {
    TrimSpaceUnchanged("Back");
  }

  /**
    ProcessCmd: carries out one typed line and returns the status message,
    the game to continue with and the hint (gs.Hint, which only `hint` sets).
   */
  method ProcessCmd(host: Host, cmd: string, game: Game, us: UciState, hint: Option<Move>)
    returns (msg: string, next: Game, nextHint: Option<Move>)
    ensures Classify(TrimSpace(cmd)) != HintReq ==> nextHint == hint
    ensures Classify(TrimSpace(cmd)) in {Save, Image, Fen, HintReq, QuitCmd} ==> next == game
    ensures Classify(TrimSpace(cmd)) == Back ==>
      msg == CommandLabel && next == Replay(host.rules, NewGame(), game.moves[..Kept(|game.moves|)])
    ensures Classify(TrimSpace(cmd)) == Save ==> msg == host.saveGame(game)
    ensures Classify(TrimSpace(cmd)) == Image ==> msg == host.saveImage(game)
    ensures Classify(TrimSpace(cmd)) == Fen ==> msg == host.rules.fen(game)
    ensures Classify(TrimSpace(cmd)) == Reset ==> msg == CommandLabel && next == NewGame()
    ensures Classify(TrimSpace(cmd)) == ResignCmd ==> msg == CommandLabel && next == ResignGame(game)
    ensures Classify(TrimSpace(cmd)) == HintReq ==> (msg, nextHint) == HintCmd(host, game, us, hint)
    ensures Classify(TrimSpace(cmd)) == QuitCmd ==> msg == "quit"
    ensures Classify(TrimSpace(cmd)).MoveText? ==>
      var played := MoveStr(host.rules, game, Classify(TrimSpace(cmd)).text);
      && (played.None? ==> msg == IllegalMove && next == game)
      && (played.Some? ==> msg == CommandLabel && next == played.value
                           && next.moves == game.moves + [host.rules.decode(game, Classify(TrimSpace(cmd)).text).value])
  {
    var command := Classify(TrimSpace(cmd));
    nextHint := hint;
    match command
    case Back =>
      msg := CommandLabel;
      next := UndoMove(host.rules, game);
    case Save =>
      msg, next := host.saveGame(game), game;
    case Image =>
      msg, next := host.saveImage(game), game;
    case Fen =>
      msg, next := host.rules.fen(game), game;
    case Reset =>
      msg, next := CommandLabel, ResetGame(game);
    case ResignCmd =>
      msg, next := CommandLabel, ResignGame(game);
    case HintReq =>
      msg, nextHint := HintCmd(host, game, us, hint).0, HintCmd(host, game, us, hint).1;
      next := game;
    case QuitCmd =>
      msg, next := Quit(), game;
    case MoveText(text) =>
      match MoveStr(host.rules, game, text)
      case None =>
        msg, next := IllegalMove, game;
      case Some(g) =>
        msg, next := CommandLabel, g;
  }
}
