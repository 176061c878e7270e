/**
  pkg/init.go: naming the players and resolving the command-line flags and
  the configuration file into the configuration the game starts with. The
  operating-system user, the configuration file's decoded contents, the
  built-in themes and the file system are parameters; printing and exiting
  become outcomes.
 */
module Startup {
  import opened Wrappers
  import opened Records
  import opened Download
  import Configs

  // ---------------------------------------------------------------------------
  // uciCmd

  /** filepath.IsPathSeparator: '/' everywhere, and '\' too on Windows. */
  predicate IsPathSeparator(goos: string, c: char)
  {
    c == '/' || (IsWindows(goos) && c == '\\')
  }

  /** The length of a Windows drive-letter volume name ("C:"), 0 otherwise. */
  function VolumeLength(goos: string, p: string): (n: nat)
    ensures n <= |p|
  {
    if IsWindows(goos) && |p| >= 2 && p[1] == ':' && (('a' <= p[0] <= 'z') || ('A' <= p[0] <= 'Z')) then 2 else 0
  }

  /** The index just past the last separator at or after the volume name (the volume's length when there is none). */
  function SplitPoint(goos: string, p: string, i: nat): (k: nat)
    requires VolumeLength(goos, p) <= i <= |p|
    ensures VolumeLength(goos, p) <= k <= i
    ensures k > VolumeLength(goos, p) ==> IsPathSeparator(goos, p[k - 1])
    ensures forall j :: k <= j < i ==> !IsPathSeparator(goos, p[j])
    decreases i
  {
    if i == VolumeLength(goos, p) then i
    else if IsPathSeparator(goos, p[i - 1]) then i
    else SplitPoint(goos, p, i - 1)
  }

  /** uciCmd: the file part of filepath.Split(p). */
  function UciCmd(goos: string, p: string): (file: string)
    ensures |file| <= |p| && file == p[|p| - |file|..]
    ensures forall j :: 0 <= j < |file| ==> !IsPathSeparator(goos, file[j])
  {
    var k := SplitPoint(goos, p, |p|);
    assert forall j :: 0 <= j < |p| - k ==> p[k..][j] == p[k + j];
    p[k..]
  }

  /** uciCmd returns what follows the last separator, and "" when p ends in one. */
  lemma UciCmdAfterLast(goos: string, p: string, k: nat)
    requires k < |p| && IsPathSeparator(goos, p[k])
    requires forall j :: k < j < |p| ==> !IsPathSeparator(goos, p[j])
    ensures UciCmd(goos, p) == p[k + 1..]
    ensures k == |p| - 1 ==> UciCmd(goos, p) == ""
  {
    assert SplitPoint(goos, p, |p|) == k + 1;
  }

  /** uciCmd returns all of p when p has no separator and no volume name. */
  lemma UciCmdNoSeparator(goos: string, p: string)
    requires VolumeLength(goos, p) == 0
    requires forall j :: 0 <= j < |p| ==> !IsPathSeparator(goos, p[j])
    ensures UciCmd(goos, p) == p
  {
  }

  lemma UciCmdUnixPath()
    ensures UciCmd("linux", "/usr/games/stockfish") == "stockfish"
  {
    var p := "/usr/games/stockfish";
    UciCmdAfterLast("linux", p, 10);
    assert p[11..] == "stockfish";
  }

  lemma UciCmdBareName()
    ensures UciCmd("linux", "stockfish") == "stockfish"
  {
    UciCmdNoSeparator("linux", "stockfish");
  }

  /** On Windows both separators count and a drive letter is skipped; elsewhere '\' is an ordinary character. */
  lemma UciCmdWindowsPath()
    ensures UciCmd("windows", "C:\\engines\\stockfish.exe") == "stockfish.exe"
    ensures UciCmd("linux", "C:\\engines\\stockfish.exe") == "C:\\engines\\stockfish.exe"
  {
    var w := "C:\\engines\\stockfish.exe";
    UciCmdAfterLast("windows", w, 10);
    assert w[11..] == "stockfish.exe";
    UciCmdNoSeparator("linux", w);
  }

  lemma UciCmdDriveRelative()
    ensures UciCmd("windows", "C:stockfish.exe") == "stockfish.exe"
  {
    var v := "C:stockfish.exe";
    assert VolumeLength("windows", v) == 2;
    assert forall j :: 2 <= j < |v| ==> !IsPathSeparator("windows", v[j]);
    assert SplitPoint("windows", v, |v|) == 2;
    assert v[2..] == "stockfish.exe";
  }

  // ---------------------------------------------------------------------------
  // Player names

  /**
    setBlackPieceName: when black is played by the CPU, the name is the
    black engine's command name, otherwise the OS user's name (None where
    user.Current fails and the code panics). No other field changes.
   */
  function SetBlackPieceName(goos: string, c: Config, osUser: Option<string>): (r: Option<Config>)
    ensures c.blackPiece == "cpu" ==> r == Some(c.(blackName := UciCmd(goos, c.uciBlack)))
    ensures c.blackPiece != "cpu" ==> (r.Some? <==> osUser.Some?)
    ensures c.blackPiece != "cpu" && osUser.Some? ==> r == Some(c.(blackName := osUser.value))
  {
    if c.blackPiece == "cpu" then Some(c.(blackName := UciCmd(goos, c.uciBlack)))
    else if osUser.None? then None
    else Some(c.(blackName := osUser.value))
  }

  /** setWhitePieceName: the same rule for the white player. */
  function SetWhitePieceName(goos: string, c: Config, osUser: Option<string>): (r: Option<Config>)
    ensures c.whitePiece == "cpu" ==> r == Some(c.(whiteName := UciCmd(goos, c.uciWhite)))
    ensures c.whitePiece != "cpu" ==> (r.Some? <==> osUser.Some?)
    ensures c.whitePiece != "cpu" && osUser.Some? ==> r == Some(c.(whiteName := osUser.value))
  {
    if c.whitePiece == "cpu" then Some(c.(whiteName := UciCmd(goos, c.uciWhite)))
    else if osUser.None? then None
    else Some(c.(whiteName := osUser.value))
  }

  /** The two setters are mirror images: swapping the colours of the config swaps their results. */
  lemma SettersSymmetric(goos: string, c: Config, osUser: Option<string>)
    ensures var swapped := c.(uciWhite := c.uciBlack, uciBlack := c.uciWhite,
                              whitePiece := c.blackPiece, blackPiece := c.whitePiece,
                              whiteName := c.blackName, blackName := c.whiteName);
      var black := SetBlackPieceName(goos, c, osUser);
      var white := SetWhitePieceName(goos, swapped, osUser);
      white.Some? == black.Some? && (white.Some? ==> white.value.whiteName == black.value.blackName)
  {
  }

  // ---------------------------------------------------------------------------
  // Init

  /** The command-line flags. */
  datatype Flags = Flags(tmpl: bool, cfg: string, white: string, black: string, themes: bool)

  const DefaultFlags := Flags(false, "", "human", "cpu", false)

  /** What the outside world supplies: platform, environment, files, decoded configuration files and the OS user. */
  datatype World = World(env: Env, fs: Fs, builtins: seq<Theme>, readConfig: string -> Option<Config>, osUser: Option<string>)

  /** How Init ends. */
  datatype Outcome =
    | PrintedTemplate(template: Config)     // -tmpl: the default configuration is printed, then exit
    | ListedThemes(names: seq<string>)     // -themes: the built-in theme names are printed, then exit
    | Usage                                // a bad -white or -black: the flag defaults are printed, then exit
    | Panicked                             // the configuration file cannot be read or decoded, or the OS user is unknown
    | InstallPrompted                      // no configuration file, the default engine path is not a file and the search finds nothing: the install prompt runs, then exit
    | Started(config: Config)              // the game starts with this configuration

  predicate ValidSide(s: string)
  {
    s == "human" || s == "cpu"
  }

  /** Lines 97-103: fill in only the empty names, white first. */
  function FillNames(goos: string, c: Config, osUser: Option<string>): (r: Option<Config>)
    ensures r.Some? ==> r.value.(whiteName := c.whiteName, blackName := c.blackName) == c
    ensures r.Some? && c.whiteName != "" ==> r.value.whiteName == c.whiteName
    ensures r.Some? && c.blackName != "" ==> r.value.blackName == c.blackName
  {
    var white := if c.whiteName == "" then SetWhitePieceName(goos, c, osUser) else Some(c);
    if white.None? then None
    else if white.value.blackName == "" then SetBlackPieceName(goos, white.value, osUser)
    else white
  }

  /**
    The configuration before the names are filled in: the decoded file with
    the themes merged (its sides replacing the flags), or the default
    configuration with the built-in themes and the flags' sides; None when
    the file cannot be read or decoded.
   */
  function BaseConfig(flags: Flags, world: World): (r: Option<Config>)
    ensures flags.cfg != "" ==> (r.Some? <==> world.readConfig(flags.cfg).Some?)
    ensures flags.cfg != "" && r.Some? ==> r.value.whitePiece == world.readConfig(flags.cfg).value.whitePiece
                                           && r.value.blackPiece == world.readConfig(flags.cfg).value.blackPiece
    ensures flags.cfg == "" ==> r.Some? && r.value.whitePiece == flags.white && r.value.blackPiece == flags.black
  {
    if flags.cfg != "" then
      match world.readConfig(flags.cfg)
      case None => None
      case Some(file) => Some(file.(themes := Configs.Merged(world.builtins, file.themes)))
    else
      Some(Configs.DefaultConfig.(uciEngines := [Configs.DefaultEngine.(path := Configs.DefaultPath(world.env, world.fs))],
                                  themes := world.builtins, whitePiece := flags.white, blackPiece := flags.black))
  }

  /** Init, after flag parsing: the exits in the order the code checks them, then the resolved configuration. */
  method Init(flags: Flags, world: World) returns (out: Outcome)
    ensures flags.tmpl ==> out == PrintedTemplate(Configs.DefaultConfig.(uciEngines := [Configs.DefaultEngine.(path := Configs.DefaultPath(world.env, world.fs))]))
    ensures !flags.tmpl && flags.themes ==> out == ListedThemes(seq(|world.builtins|, i requires 0 <= i < |world.builtins| => world.builtins[i].name))
    ensures !flags.tmpl && !flags.themes && !(ValidSide(flags.white) && ValidSide(flags.black)) ==> out == Usage
    ensures !flags.tmpl && !flags.themes && ValidSide(flags.white) && ValidSide(flags.black) ==>
              var base := BaseConfig(flags, world);
              var named := if base.Some? then FillNames(world.env.goos, base.value, world.osUser) else None;
              var prompt := flags.cfg == "" && !world.fs.isFile(Configs.DefaultPath(world.env, world.fs))
                            && FirstFound(world.env.goos, world.fs, SearchPaths(world.env, world.fs)) == "";
              && (prompt ==> out == InstallPrompted)
              && (!prompt && named.None? ==> out == Panicked)
              && (!prompt && named.Some? ==> out == Started(named.value))
  {
    var goos := world.env.goos;
    if flags.tmpl {
      var defaultCfg := Configs.MakeDefault(world.env, world.fs);
      return PrintedTemplate(defaultCfg);
    }
    if flags.themes {
      var names: seq<string> := [];
      for i := 0 to |world.builtins|
        invariant names == seq(i, j requires 0 <= j < i => world.builtins[j].name)
      {
        names := names + [world.builtins[i].name];
      }
      return ListedThemes(names);
    }
    if (flags.white != "human" && flags.white != "cpu") || (flags.black != "human" && flags.black != "cpu") {
      return Usage;
    }
    var white, black := flags.white, flags.black;
    var config: Config;
    if flags.cfg != "" {
      var read := world.readConfig(flags.cfg);
      if read.None? {
        return Panicked;
      }
      config := Configs.MergeThemes(world.builtins, read.value);
      white := config.whitePiece;
      black := config.blackPiece;
    } else {
      config := Configs.MakeDefault(world.env, world.fs);
      config := config.(themes := world.builtins);
      var uciPath := config.uciEngines[0].path;
      if !world.fs.isFile(uciPath) {
        // FetchStockfish searches again; every branch of its prompt exits.
        var found := FindStockfish(world.env, world.fs);
        if found == "" {
          return InstallPrompted;
        }
      }
    }
    config := config.(whitePiece := white, blackPiece := black);
    if config.whiteName == "" {
      var named := SetWhitePieceName(goos, config, world.osUser);
      if named.None? {
        return Panicked;
      }
      config := named.value;
    }
    if config.blackName == "" {
      var named := SetBlackPieceName(goos, config, world.osUser);
      if named.None? {
        return Panicked;
      }
      config := named.value;
    }
    return Started(config);
  }

  /**
    The side flags are checked before the configuration file replaces them,
    so a file may start a game with a side that is neither "human" nor
    "cpu": such a side is treated as a human player and named after the OS
    user.
   */
  lemma FileSidesUnchecked(world: World, file: Config)
    requires world.readConfig("uchess.json") == Some(file)
    requires file.whitePiece == "robot" && file.whiteName == "" && file.blackName != ""
    requires world.osUser == Some("alice")
    ensures var base := BaseConfig(DefaultFlags.(cfg := "uchess.json"), world);
      && base.Some? && base.value.whitePiece == "robot"
      && FillNames(world.env.goos, base.value, world.osUser) == Some(base.value.(whiteName := "alice"))
  {
  }

  /** With no configuration file and the default flags, white is named after the OS user and black after the engine's command. */
  lemma DefaultPlayers(goos: string, c: Config, user: string)
    requires c.whiteName == "" && c.blackName == "" && c.whitePiece == "human" && c.blackPiece == "cpu"
    ensures FillNames(goos, c, Some(user)) == Some(c.(whiteName := user, blackName := UciCmd(goos, c.uciBlack)))
  {
  }
}
