/**
  config.go, the older copy of the configuration code. HasTheme and the theme
  merge of ReadConfig are the same code as in pkg/config.go and are modelled
  by Configs.HasTheme and Configs.MergeThemes. What differs are the
  defaults: the engine list is built at start-up with the path
  FindOrFetchStockfish returns (a parameter here), and the engine's settings
  are stronger.
 */
module LegacyConfigs {
  import opened Wrappers
  import opened Records
  import Chess
  import Engines
  import Configs

  const DefaultOptions: seq<UciOption> := [UciOption("skill level", "20")]

  /** uciEngines: one Stockfish configuration at the given path. */
  function UciEngines(path: string): (engines: seq<UciEngine>)
    ensures |engines| == 1 && engines[0].path == path
  {
    [UciEngine("stockfish", path, 128, false, false, 4, 0, "", 3000, DefaultOptions)]
  }

  /** DefaultConfig: every role is "stockfish", white is played by a human and black by the CPU. */
  function DefaultConfig(path: string): Config
  {
    Config("stockfish", "stockfish", "stockfish", UciEngines(path), Chess.StandardFen, "basic", [], "human", "cpu", "", "")
  }

  /**
    The older defaults resolve every role to their single engine, with hash
    128, multipv 4, depth 0, movetime 3000 and skill level 20; they differ
    from the newer defaults only in the engine list.
   */
  lemma DefaultRolesResolve(path: string)
    ensures var config := DefaultConfig(path);
      var engine := config.uciEngines[0];
      && Engines.Imported(config.uciWhite, config.uciBlack, config.uciHint, config.uciEngines)
         == Success(Engines.Roster(engine, engine, engine))
      && engine.name == "stockfish" && engine.path == path && engine.hash == 128 && engine.multiPV == 4
      && engine.depth == 0 && engine.moveTime == 3000 && engine.options == [UciOption("skill level", "20")]
      && config.(uciEngines := []) == Configs.DefaultConfig
  {
    var engine := UciEngines(path)[0];
    Engines.LastNamedIsLast("stockfish", UciEngines(path), 0);
  }
}
