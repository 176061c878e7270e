/**
  The configuration records shared by the engine, configuration, start-up and
  session modules: a free-form UCI option, an engine configuration (UCIEngine),
  a colour theme (only its name matters here) and the application Config.
 */
module Records {

  /** A free-form UCI option sent to an engine as `setoption name <name> value <value>`. */
  datatype UciOption = UciOption(name: string, value: string)

  /**
    One engine configuration. `moveTime` is the configured number, which the
    session multiplies by a millisecond when it builds a search request.
   */
  datatype UciEngine = UciEngine(
    name: string,
    path: string,
    hash: int,
    ponder: bool,
    ownBook: bool,
    multiPV: int,
    depth: int,
    searchMoves: string,
    moveTime: int,
    options: seq<UciOption>)

  /** Go's zero value of UCIEngine. */
  const ZeroEngine := UciEngine("", "", 0, false, false, 0, 0, "", 0, [])

  /** A started engine process; what it does is left to the oracles that receive it. */
  datatype EngineHandle = EngineHandle(id: nat)

  /** A colour theme; the colour fields are carried along but never inspected. */
  datatype Theme = Theme(name: string, colors: seq<string>)

  /** The application configuration (uciWhite, uciBlack, uciHint name engine roles). */
  datatype Config = Config(
    uciWhite: string,
    uciBlack: string,
    uciHint: string,
    uciEngines: seq<UciEngine>,
    fen: string,
    activeTheme: string,
    themes: seq<Theme>,
    whitePiece: string,
    blackPiece: string,
    whiteName: string,
    blackName: string)
}
