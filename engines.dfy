/**
  pkg/engine.go: choosing the engine configuration of each role (white,
  black, hint) from the configured list, and bringing the three engine
  processes up with their options, recorded as a log of what is sent to
  which engine. Starting a process and running commands on it are oracles
  in a `Launcher` value; a failed start or run is a panic in the source and
  an error result here.
 */
module Engines {
  import opened Wrappers
  import opened Text
  import opened Records

  datatype Role = WhiteRole | BlackRole | HintRole

  /** The configurations ImportEngines returns, one per role. */
  datatype Roster = Roster(white: UciEngine, black: UciEngine, hint: UciEngine)

  /** The last engine in the list with exactly the given name. */
  function LastNamed(name: string, engines: seq<UciEngine>): (r: Option<UciEngine>)
    ensures r.Some? <==> exists i :: 0 <= i < |engines| && engines[i].name == name
    ensures r.Some? ==> r.value.name == name && r.value in engines
  {
    if engines == [] then None
    else if engines[|engines| - 1].name == name then Some(engines[|engines| - 1])
    else
      var r := LastNamed(name, engines[..|engines| - 1]);
      assert forall i :: 0 <= i < |engines| - 1 ==> engines[..|engines| - 1][i] == engines[i];
      r
  }

  /** The entry LastNamed picks is the one after which no entry has that name. */
  lemma {:induction false} LastNamedIsLast(name: string, engines: seq<UciEngine>, i: nat)
    requires i < |engines| && engines[i].name == name
    requires forall j :: i < j < |engines| ==> engines[j].name != name
    ensures LastNamed(name, engines) == Some(engines[i])
  {
    if i < |engines| - 1 {
      var init := engines[..|engines| - 1];
      assert init[i] == engines[i];
      LastNamedIsLast(name, init, i);
    }
  }

  /**
    The specification of ImportEngines: each role gets the last entry with its
    name; a role with no entry is a failure, looked for in the order white,
    black, hint.
   */
  function Imported(uciWhite: string, uciBlack: string, uciHint: string, engines: seq<UciEngine>): Result<Roster, Role>
  {
    var white := LastNamed(uciWhite, engines);
    var black := LastNamed(uciBlack, engines);
    var hint := LastNamed(uciHint, engines);
    if white.None? then Failure(WhiteRole)
    else if black.None? then Failure(BlackRole)
    else if hint.None? then Failure(HintRole)
    else Success(Roster(white.value, black.value, hint.value))
  }

  /** Extending the scanned prefix by one engine: that engine wins when its name matches. */
  lemma LastNamedStep(name: string, engines: seq<UciEngine>, i: int)
    requires 0 <= i < |engines|
    ensures LastNamed(name, engines[..i + 1])
            == if engines[i].name == name then Some(engines[i]) else LastNamed(name, engines[..i])
  {
    assert engines[..i + 1][..i] == engines[..i];
  }

  method ImportEngines(uciWhite: string, uciBlack: string, uciHint: string, engines: seq<UciEngine>)
    returns (res: Result<Roster, Role>)
    ensures res == Imported(uciWhite, uciBlack, uciHint, engines)
  {
    var cfgWhite, cfgBlack, cfgHint := ZeroEngine, ZeroEngine, ZeroEngine;
    var whiteFound, blackFound, hintFound := false, false, false;
    var i := 0;
    while i < |engines|
      invariant 0 <= i <= |engines|
      invariant whiteFound == LastNamed(uciWhite, engines[..i]).Some?
      invariant whiteFound ==> cfgWhite == LastNamed(uciWhite, engines[..i]).value
      invariant blackFound == LastNamed(uciBlack, engines[..i]).Some?
      invariant blackFound ==> cfgBlack == LastNamed(uciBlack, engines[..i]).value
      invariant hintFound == LastNamed(uciHint, engines[..i]).Some?
      invariant hintFound ==> cfgHint == LastNamed(uciHint, engines[..i]).value
    {
      var e := engines[i];
      LastNamedStep(uciWhite, engines, i);
      LastNamedStep(uciBlack, engines, i);
      LastNamedStep(uciHint, engines, i);
      if uciWhite == e.name {
        cfgWhite, whiteFound := e, true;
      }
      if uciBlack == e.name {
        cfgBlack, blackFound := e, true;
      }
      if uciHint == e.name {
        cfgHint, hintFound := e, true;
      }
      i := i + 1;
    }
    assert engines[..i] == engines;
    if !whiteFound {
      return Failure(WhiteRole);
    }
    if !blackFound {
      return Failure(BlackRole);
    }
    if !hintFound {
      return Failure(HintRole);
    }
    return Success(Roster(cfgWhite, cfgBlack, cfgHint));
  }

  /** On success every role's configuration carries the requested name, and it is the last such entry. */
  lemma ImportedNames(uciWhite: string, uciBlack: string, uciHint: string, engines: seq<UciEngine>)
    requires Imported(uciWhite, uciBlack, uciHint, engines).Success?
    ensures var roster := Imported(uciWhite, uciBlack, uciHint, engines).value;
      roster.white.name == uciWhite && roster.black.name == uciBlack && roster.hint.name == uciHint
      && roster.white in engines && roster.black in engines && roster.hint in engines
  {
  }

  /** Import fails exactly when a role's name is missing, and reports the first missing role in the order white, black, hint. */
  lemma ImportFailures(uciWhite: string, uciBlack: string, uciHint: string, engines: seq<UciEngine>)
    ensures var names := set e | e in engines :: e.name;
      var res := Imported(uciWhite, uciBlack, uciHint, engines);
      && (res == Failure(WhiteRole) <==> uciWhite !in names)
      && (res == Failure(BlackRole) <==> uciWhite in names && uciBlack !in names)
      && (res == Failure(HintRole) <==> uciWhite in names && uciBlack in names && uciHint !in names)
      && (res.Success? <==> uciWhite in names && uciBlack in names && uciHint in names)
  {
    var names := set e | e in engines :: e.name;
    forall n ensures n in names <==> LastNamed(n, engines).Some? {
      if n in names {
        var e :| e in engines && e.name == n;
        var i :| 0 <= i < |engines| && engines[i] == e;
        assert engines[i].name == n;
      }
    }
  }

  /** Two roles naming the same engine get equal copies of it. */
  lemma SharedEngine(uciWhite: string, uciBlack: string, uciHint: string, engines: seq<UciEngine>)
    requires Imported(uciWhite, uciBlack, uciHint, engines).Success?
    ensures var roster := Imported(uciWhite, uciBlack, uciHint, engines).value;
      && (uciWhite == uciBlack ==> roster.white == roster.black)
      && (uciWhite == uciHint ==> roster.white == roster.hint)
      && (uciBlack == uciHint ==> roster.black == roster.hint)
  {
  }

  // ---------------------------------------------------------------------------
  // Configuring and starting engines

  /** The UCI commands the code builds. */
  datatype UciCmd = CmdUci | CmdIsReady | CmdSetOption(name: string, value: string) | CmdUciNewGame

  /** What happens to the engines, in order. */
  datatype Event =
    | Launch(path: string)                        // uci.New(path)
    | Run(eng: EngineHandle, cmds: seq<UciCmd>)  // eng.Run(cmds...)
    | Respond(eng: EngineHandle, cmd: UciCmd)    // cmd.ProcessResponse(eng), called directly

  /** Starting processes and running commands on them. */
  datatype Launcher = Launcher(start: string -> Option<EngineHandle>, run: (EngineHandle, seq<UciCmd>) -> bool)

  /** The one Run of cfgEngines: uci, isready, the four standard options rendered with %v, ucinewgame. */
  function SetupCommands(cfg: UciEngine): (cmds: seq<UciCmd>)
    ensures |cmds| == 7 && cmds[0] == CmdUci && cmds[1] == CmdIsReady && cmds[6] == CmdUciNewGame
    ensures cmds[2].CmdSetOption? && cmds[2].name == "hash"
    ensures cmds[3].CmdSetOption? && cmds[3].name == "ponder"
    ensures cmds[4].CmdSetOption? && cmds[4].name == "ownbook"
    ensures cmds[5].CmdSetOption? && cmds[5].name == "multipv"
  {
    [CmdUci, CmdIsReady,
     CmdSetOption("hash", IntToDecimal(cfg.hash)),
     CmdSetOption("ponder", BoolText(cfg.ponder)),
     CmdSetOption("ownbook", BoolText(cfg.ownBook)),
     CmdSetOption("multipv", IntToDecimal(cfg.multiPV)),
     CmdUciNewGame]
  }

  /** The values sent for the standard options read back as the configured ones. */
  lemma SetupValues(cfg: UciEngine)
    ensures var cmds := SetupCommands(cfg);
      && IsSignedDecimal(cmds[2].value) && SignedValue(cmds[2].value) == cfg.hash
      && (cmds[3].value == "true" <==> cfg.ponder)
      && (cmds[4].value == "true" <==> cfg.ownBook)
      && IsSignedDecimal(cmds[5].value) && SignedValue(cmds[5].value) == cfg.multiPV
  {
    SignedRoundTrip(cfg.hash);
    SignedRoundTrip(cfg.multiPV);
  }

  /** One Respond event per custom option, in list order. */
  function OptionEvents(eng: EngineHandle, options: seq<UciOption>): (events: seq<Event>)
    ensures |events| == |options|
    ensures forall i :: 0 <= i < |options| ==> events[i] == Respond(eng, CmdSetOption(options[i].name, options[i].value))
  {
    if options == [] then []
    else OptionEvents(eng, options[..|options| - 1]) + [Respond(eng, CmdSetOption(options[|options| - 1].name, options[|options| - 1].value))]
  }

  /**
    cfgEngines: one Run of the setup commands, then each custom option in
    list order. A failed Run is a panic, reported as ok == false.
   */
  method CfgEngines(launcher: Launcher, eng: EngineHandle, cfg: UciEngine) returns (log: seq<Event>, ok: bool)
    ensures ok <==> launcher.run(eng, SetupCommands(cfg))
    ensures log == [Run(eng, SetupCommands(cfg))] + (if ok then OptionEvents(eng, cfg.options) else [])
  {
    log := [Run(eng, SetupCommands(cfg))];
    ok := launcher.run(eng, SetupCommands(cfg));
    if !ok {
      return;
    }
    var i := 0;
    while i < |cfg.options|
      invariant 0 <= i <= |cfg.options|
      invariant log == [Run(eng, SetupCommands(cfg))] + OptionEvents(eng, cfg.options[..i])
    {
      var option := cfg.options[i];
      assert cfg.options[..i + 1][..i] == cfg.options[..i];
      log := log + [Respond(eng, CmdSetOption(option.name, option.value))];
      i := i + 1;
    }
    assert cfg.options[..i] == cfg.options;
  }

  /** Why start-up stopped. */
  datatype Panic = ImportFailed(role: Role) | LaunchFailed(role: Role) | ConfigureFailed(role: Role)

  /** The engine processes of the three roles, as InitEngines returns them. */
  datatype Processes = Processes(white: EngineHandle, black: EngineHandle, hint: EngineHandle)

  /** Bringing one role up: launch its path, then configure it; the events and the handle, or the panic. */
  function BringUp(launcher: Launcher, role: Role, cfg: UciEngine): (res: (seq<Event>, Result<EngineHandle, Panic>))
    ensures |res.0| >= 1 && res.0[0] == Launch(cfg.path)
    ensures res.1.Failure? ==> res.1.error.role == role
  {
    match launcher.start(cfg.path)
    case None => ([Launch(cfg.path)], Failure(LaunchFailed(role)))
    case Some(eng) =>
      var ok := launcher.run(eng, SetupCommands(cfg));
      var log := [Launch(cfg.path), Run(eng, SetupCommands(cfg))] + (if ok then OptionEvents(eng, cfg.options) else []);
      (log, if ok then Success(eng) else Failure(ConfigureFailed(role)))
  }

  /** Bringing the roles of a roster up in the order white, black, hint, stopping at the first failure. */
  function StartRoster(launcher: Launcher, roster: Roster): (res: (seq<Event>, Result<Processes, Panic>))
  {
    var white := BringUp(launcher, WhiteRole, roster.white);
    var black := BringUp(launcher, BlackRole, roster.black);
    var hint := BringUp(launcher, HintRole, roster.hint);
    if white.1.Failure? then (white.0, Failure(white.1.error))
    else if black.1.Failure? then (white.0 + black.0, Failure(black.1.error))
    else if hint.1.Failure? then (white.0 + black.0 + hint.0, Failure(hint.1.error))
    else (white.0 + black.0 + hint.0, Success(Processes(white.1.value, black.1.value, hint.1.value)))
  }

  /** The specification of InitEngines: nothing happens when a role is missing, otherwise the roster is brought up. */
  function Startup(launcher: Launcher, config: Config): (res: (seq<Event>, Result<Processes, Panic>))
  {
    var imported := Imported(config.uciWhite, config.uciBlack, config.uciHint, config.uciEngines);
    if imported.Failure? then ([], Failure(ImportFailed(imported.error)))
    else StartRoster(launcher, imported.value)
  }

  /**
    InitEngines: import the roles, then bring up white, black and hint in
    that order; the first failure stops start-up.
   */
  method InitEngines(launcher: Launcher, config: Config) returns (log: seq<Event>, res: Result<Processes, Panic>)
    ensures (log, res) == Startup(launcher, config)
  {
    var imported := ImportEngines(config.uciWhite, config.uciBlack, config.uciHint, config.uciEngines);
    log := [];
    if imported.Failure? {
      return log, Failure(ImportFailed(imported.error));
    }
    var roster := imported.value;
    var engWhite, engBlack, engHint;
    log, engWhite := StartRole(launcher, WhiteRole, roster.white, log);
    assert [] + BringUp(launcher, WhiteRole, roster.white).0 == BringUp(launcher, WhiteRole, roster.white).0;
    if engWhite.Failure? {
      return log, Failure(engWhite.error);
    }
    log, engBlack := StartRole(launcher, BlackRole, roster.black, log);
    if engBlack.Failure? {
      return log, Failure(engBlack.error);
    }
    log, engHint := StartRole(launcher, HintRole, roster.hint, log);
    if engHint.Failure? {
      return log, Failure(engHint.error);
    }
    return log, Success(Processes(engWhite.value, engBlack.value, engHint.value));
  }

  /** One `uci.New` followed, when it succeeds, by cfgEngines; events are added to the log. */
  method StartRole(launcher: Launcher, role: Role, cfg: UciEngine, log0: seq<Event>)
    returns (log: seq<Event>, eng: Result<EngineHandle, Panic>)
    ensures log == log0 + BringUp(launcher, role, cfg).0 && eng == BringUp(launcher, role, cfg).1
  {
    log := log0 + [Launch(cfg.path)];
    var started := launcher.start(cfg.path);
    if started.None? {
      return log, Failure(LaunchFailed(role));
    }
    var events, ok := CfgEngines(launcher, started.value, cfg);
    log := log + events;
    if !ok {
      return log, Failure(ConfigureFailed(role));
    }
    return log, Success(started.value);
  }

  /** The paths launched, in order. */
  function Launches(log: seq<Event>): (paths: seq<string>)
    ensures |paths| <= |log|
  {
    if log == [] then []
    else Launches(log[..|log| - 1]) + (if log[|log| - 1].Launch? then [log[|log| - 1].path] else [])
  }

  lemma {:induction false} LaunchesAppend(a: seq<Event>, b: seq<Event>)
    ensures Launches(a + b) == Launches(a) + Launches(b)
    decreases |b|
  {
    if b == [] {
      assert a + b == a;
    } else {
      assert (a + b)[..|a + b| - 1] == a + b[..|b| - 1];
      LaunchesAppend(a, b[..|b| - 1]);
    }
  }

  lemma {:induction false} NoLaunchInOptions(eng: EngineHandle, options: seq<UciOption>)
    ensures Launches(OptionEvents(eng, options)) == []
  {
    if options != [] {
      var events := OptionEvents(eng, options);
      assert events[..|events| - 1] == OptionEvents(eng, options[..|options| - 1]);
      NoLaunchInOptions(eng, options[..|options| - 1]);
    }
  }

  /** Bringing one role up launches exactly its configured path. */
  lemma BringUpLaunchesOnce(launcher: Launcher, role: Role, cfg: UciEngine)
    ensures Launches(BringUp(launcher, role, cfg).0) == [cfg.path]
  {
    var log := BringUp(launcher, role, cfg).0;
    assert Launches([Launch(cfg.path)]) == [cfg.path] by {
      assert [Launch(cfg.path)][..0] == [];
    }
    match launcher.start(cfg.path)
    case None =>
    case Some(eng) =>
      var ok := launcher.run(eng, SetupCommands(cfg));
      var rest := if ok then OptionEvents(eng, cfg.options) else [];
      NoLaunchInOptions(eng, cfg.options);
      assert Launches([Run(eng, SetupCommands(cfg))]) == [] by {
        assert [Run(eng, SetupCommands(cfg))][..0] == [];
      }
      LaunchesAppend([Launch(cfg.path)], [Run(eng, SetupCommands(cfg))]);
      LaunchesAppend([Launch(cfg.path), Run(eng, SetupCommands(cfg))], rest);
  }

  lemma WhiteFailsLaunches(launcher: Launcher, roster: Roster)
    requires BringUp(launcher, WhiteRole, roster.white).1.Failure?
    ensures Launches(StartRoster(launcher, roster).0) == [roster.white.path]
  {
    BringUpLaunchesOnce(launcher, WhiteRole, roster.white);
  }

  lemma BlackFailsLaunches(launcher: Launcher, roster: Roster)
    requires BringUp(launcher, WhiteRole, roster.white).1.Success?
    requires BringUp(launcher, BlackRole, roster.black).1.Failure?
    ensures Launches(StartRoster(launcher, roster).0) == [roster.white.path, roster.black.path]
  {
    BringUpLaunchesOnce(launcher, WhiteRole, roster.white);
    BringUpLaunchesOnce(launcher, BlackRole, roster.black);
    LaunchesAppend(BringUp(launcher, WhiteRole, roster.white).0, BringUp(launcher, BlackRole, roster.black).0);
  }

  lemma AllLaunched(launcher: Launcher, roster: Roster)
    requires BringUp(launcher, WhiteRole, roster.white).1.Success?
    requires BringUp(launcher, BlackRole, roster.black).1.Success?
    ensures Launches(StartRoster(launcher, roster).0) == [roster.white.path, roster.black.path, roster.hint.path]
  {
    var white := BringUp(launcher, WhiteRole, roster.white).0;
    var black := BringUp(launcher, BlackRole, roster.black).0;
    var hint := BringUp(launcher, HintRole, roster.hint).0;
    assert StartRoster(launcher, roster).0 == white + black + hint;
    BringUpLaunchesOnce(launcher, WhiteRole, roster.white);
    BringUpLaunchesOnce(launcher, BlackRole, roster.black);
    BringUpLaunchesOnce(launcher, HintRole, roster.hint);
    LaunchesAppend(white, black);
    LaunchesAppend(white + black, hint);
  }

  /**
    Start-up launches the roles' paths in the order white, black, hint and
    stops at the first role that fails: a failure of the white role launches
    only white, of the black role white then black.
   */
  lemma StartRosterLaunchOrder(launcher: Launcher, roster: Roster)
    ensures var res := StartRoster(launcher, roster).1;
      var launched := Launches(StartRoster(launcher, roster).0);
      && (res.Success? ==> launched == [roster.white.path, roster.black.path, roster.hint.path])
      && (res.Failure? && res.error.role == WhiteRole ==> launched == [roster.white.path])
      && (res.Failure? && res.error.role == BlackRole ==> launched == [roster.white.path, roster.black.path])
      && (res.Failure? && res.error.role == HintRole ==> launched == [roster.white.path, roster.black.path, roster.hint.path])
  {
    if BringUp(launcher, WhiteRole, roster.white).1.Failure? {
      WhiteFailsLaunches(launcher, roster);
    } else if BringUp(launcher, BlackRole, roster.black).1.Failure? {
      BlackFailsLaunches(launcher, roster);
    } else {
      AllLaunched(launcher, roster);
    }
  }

  /** When a role is missing from the list, start-up launches nothing and names that role. */
  lemma MissingRoleLaunchesNothing(launcher: Launcher, config: Config)
    requires Imported(config.uciWhite, config.uciBlack, config.uciHint, config.uciEngines).Failure?
    ensures Startup(launcher, config).0 == []
    ensures Startup(launcher, config).1
         == Failure(ImportFailed(Imported(config.uciWhite, config.uciBlack, config.uciHint, config.uciEngines).error))
  {
  }
}
