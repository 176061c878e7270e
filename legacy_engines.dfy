/**
  engine.go, the older copy of the engine set-up written against a different
  UCI library. Its ImportEngines is the same code as the one in
  pkg/engine.go and is modelled by Engines.ImportEngines. Its cfgEngines
  differs: one SetOptions call carrying the four standard options, then one
  SendOption call per custom option; the errors of both are ignored.
 */
module LegacyEngines {
  import opened Records
  import Engines
  import Text

  /** The calls cfgEngines makes on the engine. */
  datatype Request =
    | SetOptions(hash: int, ponder: bool, ownBook: bool, multiPV: int)
    | SendOption(name: string, value: string)

  /**
    cfgEngines: SetOptions with Hash, Ponder, OwnBook and MultiPV, then each
    custom option in list order.
   */
  method CfgEngines(cfg: UciEngine) returns (log: seq<Request>)
    ensures |log| == 1 + |cfg.options|
    ensures log[0] == SetOptions(cfg.hash, cfg.ponder, cfg.ownBook, cfg.multiPV)
    ensures forall i :: 0 <= i < |cfg.options| ==> log[i + 1] == SendOption(cfg.options[i].name, cfg.options[i].value)
    ensures log == Requests(cfg)
  {
    log := [SetOptions(cfg.hash, cfg.ponder, cfg.ownBook, cfg.multiPV)];
    for i := 0 to |cfg.options|
      invariant |log| == 1 + i
      invariant log[0] == SetOptions(cfg.hash, cfg.ponder, cfg.ownBook, cfg.multiPV)
      invariant forall j :: 0 <= j < i ==> log[j + 1] == SendOption(cfg.options[j].name, cfg.options[j].value)
    {
      log := log + [SendOption(cfg.options[i].name, cfg.options[i].value)];
    }
  }

  /** The calls of the older cfgEngines, as a function of the configuration. */
  function Requests(cfg: UciEngine): (log: seq<Request>)
    ensures |log| == 1 + |cfg.options|
  {
    [SetOptions(cfg.hash, cfg.ponder, cfg.ownBook, cfg.multiPV)]
      + seq(|cfg.options|, i requires 0 <= i < |cfg.options| => SendOption(cfg.options[i].name, cfg.options[i].value))
  }

  /**
    Both versions of cfgEngines walk the custom options in the same order with
    the same names and values: the i-th SendOption of the older copy carries
    the name and value of the i-th ProcessResponse call that pkg/engine.go
    makes after its Run. Only the older copy transmits anything: in the newer
    one, ProcessResponse is a response handler and no setoption for a custom
    option reaches the engine.
   */
  lemma CustomOptionsAgree(launcher: Engines.Launcher, eng: EngineHandle, cfg: UciEngine)
    requires launcher.run(eng, Engines.SetupCommands(cfg))
    ensures var events := [Engines.Run(eng, Engines.SetupCommands(cfg))] + Engines.OptionEvents(eng, cfg.options);
      var requests := Requests(cfg);
      |events| == |requests|
      && forall i :: 1 <= i < |events| ==>
           requests[i].SendOption? && events[i].Respond? && events[i].cmd.CmdSetOption?
           && requests[i].name == events[i].cmd.name && requests[i].value == events[i].cmd.value
  {
  }

  /**
    The standard options agree too: the older copy's single SetOptions holds
    the very values the newer copy renders into its setoption commands.
   */
  lemma StandardOptionsAgree(cfg: UciEngine)
    ensures var cmds := Engines.SetupCommands(cfg);
      var first := Requests(cfg)[0];
      && cmds[2].value == Text.IntToDecimal(first.hash)
      && cmds[3].value == Text.BoolText(first.ponder)
      && cmds[4].value == Text.BoolText(first.ownBook)
      && cmds[5].value == Text.IntToDecimal(first.multiPV)
  {
  }
}
