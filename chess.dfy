/**
  The external chess library, reduced to what the modelled code uses. The
  rules themselves (notation decoding, move legality, checkmate and draw
  detection, FEN rendering) are not modelled: they are oracles bundled in a
  `Rules` value that callers pass in.
 */
module Chess {
  import opened Wrappers

  datatype Color = White | Black

  function Other(c: Color): (o: Color)
    ensures o != c
  {
    if c == White then Black else White
  }

  /** The library's outcome tags: "*", "1-0", "0-1", "1/2-1/2". */
  datatype Outcome = NoOutcome | WhiteWon | BlackWon | Draw

  /** How the outcome came about: not yet, by resignation, or by the position (mate, stalemate, draw rules). */
  datatype Ending = NoEnding | Resignation | ByPosition

  /** A move, written in the library's move notation. */
  type Move = string

  /** The standard starting position in Forsyth-Edwards notation. */
  const StandardFen := "rnbqkbnr/pppppppp/8/8/8/8/PPPPPPPP/RNBQKBNR w KQkq - 0 1"

  /**
    A game: the position it started from and the side that moved first there,
    the moves applied since, and the recorded outcome. The current position is
    the start position with the moves applied; the side to move follows from
    the number of moves.
   */
  datatype Game = Game(start: string, first: Color, moves: seq<Move>, outcome: Outcome, ending: Ending)

  /** The library's oracles. */
  datatype Rules = Rules(
    decode: (Game, string) -> Option<Move>,  // read a move text against the current position
    legal: (Game, Move) -> bool,             // the move is one of the position's legal moves
    judge: Game -> (Outcome, Ending),        // outcome the library records after a move was applied
    fen: Game -> string)                     // FEN of the current position

  /** chess.NewGame(): the standard start, White to move, no moves. */
  function NewGame(): (g: Game)
    ensures g.moves == [] && g.start == StandardFen && g.first == White && g.outcome == NoOutcome
  {
    Game(StandardFen, White, [], NoOutcome, NoEnding)
  }

  /** The side to move: the first mover after an even number of moves, the other side after an odd one. */
  function Turn(g: Game): (c: Color)
    ensures c == g.first <==> |g.moves| % 2 == 0
  {
    if |g.moves| % 2 == 0 then g.first else Other(g.first)
  }

  /** game.Move(m): an illegal move is an error; a legal one is appended and the outcome re-judged. */
  function ApplyMove(rules: Rules, g: Game, m: Move): (r: Option<Game>)
    ensures r.Some? <==> rules.legal(g, m)
    ensures r.Some? ==> r.value.moves == g.moves + [m] && r.value.start == g.start && r.value.first == g.first
  {
    if !rules.legal(g, m) then None
    else
      var g' := g.(moves := g.moves + [m]);
      var (outcome, ending) := rules.judge(g');
      Some(g'.(outcome := outcome, ending := ending))
  }

  /** game.MoveStr(text): decode the text against the position, then apply the move. */
  function MoveStr(rules: Rules, g: Game, text: string): (r: Option<Game>)
    ensures r.Some? <==> rules.decode(g, text).Some? && rules.legal(g, rules.decode(g, text).value)
  {
    match rules.decode(g, text)
    case None => None
    case Some(m) => ApplyMove(rules, g, m)
  }

  /**
    game.Resign(color): a game that already has an outcome is left as it is;
    otherwise the other side wins by resignation.
   */
  function Resign(g: Game, color: Color): (r: Game)
    ensures r.moves == g.moves && r.start == g.start && r.first == g.first
    ensures g.outcome != NoOutcome ==> r == g
    ensures g.outcome == NoOutcome ==>
      r.ending == Resignation && r.outcome == (if color == White then BlackWon else WhiteWon)
  {
    if g.outcome != NoOutcome then g
    else g.(outcome := if color == White then BlackWon else WhiteWon, ending := Resignation)
  }
}
