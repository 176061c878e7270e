/**
  pkg/config.go: looking a theme up by name, merging the built-in themes
  with the user's when a configuration file is read, and the default
  configuration MakeDefault produces. Reading and decoding the file and the
  embedded theme files are not modelled: the decoded configuration and the
  built-in theme list are parameters.
 */
module Configs {
  import opened Wrappers
  import opened Records
  import Chess
  import Engines
  import opened Download

  /** Some theme in the list has exactly this name. */
  predicate Named(name: string, themes: seq<Theme>)
  {
    exists i :: 0 <= i < |themes| && themes[i].name == name
  }

  /** HasTheme: whether some theme has exactly the given name; false for an empty list. */
  method HasTheme(name: string, themes: seq<Theme>) returns (found: bool)
    ensures found <==> Named(name, themes)
    ensures themes == [] ==> !found
  {
    for i := 0 to |themes|
      invariant forall j :: 0 <= j < i ==> themes[j].name != name
    {
      if themes[i].name == name {
        return true;
      }
    }
    return false;
  }

  /** The built-in themes whose names no user theme uses, in built-in order. */
  function Survivors(builtins: seq<Theme>, user: seq<Theme>): (s: seq<Theme>)
    ensures |s| <= |builtins|
    ensures forall t :: t in s <==> t in builtins && !Named(t.name, user)
  {
    if builtins == [] then []
    else
      var rest := Survivors(builtins[1..], user);
      assert forall t :: t in builtins <==> t == builtins[0] || t in builtins[1..];
      if Named(builtins[0].name, user) then rest else [builtins[0]] + rest
  }

  /** The theme list ReadConfig leaves in the configuration. */
  function Merged(builtins: seq<Theme>, user: seq<Theme>): seq<Theme>
  {
    Survivors(builtins, user) + user
  }

  /**
    The theme merge of ReadConfig: the built-ins no user theme overrides,
    then every user theme; nothing else in the configuration changes.
   */
  method MergeThemes(builtins: seq<Theme>, config: Config) returns (merged: Config)
    ensures merged == config.(themes := Merged(builtins, config.themes))
  {
    var allThemes: seq<Theme> := [];
    for i := 0 to |builtins|
      invariant allThemes == Survivors(builtins[..i], config.themes)
    {
      var theme := builtins[i];
      var overridden := HasTheme(theme.name, config.themes);
      if !overridden {
        allThemes := allThemes + [theme];
      }
      SurvivorsAppend(builtins[..i], [theme], config.themes);
      assert builtins[..i + 1] == builtins[..i] + [theme];
      assert Survivors([theme], config.themes) == if overridden then [] else [theme];
    }
    assert builtins[..|builtins|] == builtins;
    for i := 0 to |config.themes|
      invariant allThemes == Survivors(builtins, config.themes) + config.themes[..i]
    {
      allThemes := allThemes + [config.themes[i]];
      assert config.themes[..i + 1] == config.themes[..i] + [config.themes[i]];
    }
    assert config.themes[..|config.themes|] == config.themes;
    merged := config.(themes := allThemes);
  }

  /** Survivors keeps order: filtering a concatenation filters each part. */
  lemma {:induction false} SurvivorsAppend(a: seq<Theme>, b: seq<Theme>, user: seq<Theme>)
    ensures Survivors(a + b, user) == Survivors(a, user) + Survivors(b, user)
  {
    if a == [] {
      assert a + b == b;
    } else {
      assert (a + b)[0] == a[0];
      assert (a + b)[1..] == a[1..] + b;
      SurvivorsAppend(a[1..], b, user);
    }
  }

  /** No surviving built-in shares a name with a user theme, and every user theme is present, at the end and in order. */
  lemma MergedShape(builtins: seq<Theme>, user: seq<Theme>)
    ensures var m := Merged(builtins, user);
      && (forall i :: 0 <= i < |m| - |user| ==> !Named(m[i].name, user))
      && m[|m| - |user|..] == user
      && forall t :: t in user ==> t in m
  {
    var m := Merged(builtins, user);
    var s := Survivors(builtins, user);
    assert m[..|s|] == s;
    assert forall i :: 0 <= i < |s| ==> m[i] == s[i] && s[i] in s;
  }

  /** A built-in is dropped exactly when a user theme has its name. */
  lemma DroppedExactlyWhenOverridden(builtins: seq<Theme>, user: seq<Theme>, i: nat)
    requires i < |builtins|
    ensures builtins[i] in Survivors(builtins, user) <==> !Named(builtins[i].name, user)
  {
  }

  /** The merged length is the number of user themes plus the number of built-ins not overridden. */
  lemma {:induction false} MergedLength(builtins: seq<Theme>, user: seq<Theme>)
    ensures |Merged(builtins, user)| == |user| + |Survivors(builtins, user)|
    ensures |Survivors(builtins, user)| == |builtins| <==> forall i :: 0 <= i < |builtins| ==> !Named(builtins[i].name, user)
  {
    if builtins != [] {
      MergedLength(builtins[1..], user);
      assert forall i :: 1 <= i < |builtins| ==> builtins[1..][i - 1] == builtins[i];
    }
  }

  // ---------------------------------------------------------------------------
  // Defaults

  const DefaultOptions: seq<UciOption> := [UciOption("skill level", "3")]

  /** defaultEngine: Stockfish, path filled in by MakeDefault. */
  const DefaultEngine := UciEngine("stockfish", "", 128, false, false, 1, 1, "", 100, DefaultOptions)

  /** defaultConfig: every role is "stockfish", white is played by a human and black by the CPU. */
  const DefaultConfig := Config("stockfish", "stockfish", "stockfish", [], Chess.StandardFen, "basic", [],
                                "human", "cpu", "", "")

  /** The engine path MakeDefault uses: the search result, or AppDir joined with StockfishFilename when the search finds nothing. */
  function DefaultPath(env: Env, fs: Fs): (p: string)
    ensures FirstFound(env.goos, fs, SearchPaths(env, fs)) != "" ==> p == FirstFound(env.goos, fs, SearchPaths(env, fs))
    ensures FirstFound(env.goos, fs, SearchPaths(env, fs)) == "" ==> p == Join(env.goos, AppDir(env), StockfishFilename(env.goos))
  {
    var found := FirstFound(env.goos, fs, SearchPaths(env, fs));
    if found == "" then Join(env.goos, AppDir(env), StockfishFilename(env.goos)) else found
  }

  /** MakeDefault: defaultConfig holding the one default engine, its path found by FindStockfish or the fallback. */
  method MakeDefault(env: Env, fs: Fs) returns (config: Config)
    ensures config == DefaultConfig.(uciEngines := [DefaultEngine.(path := DefaultPath(env, fs))])
  {
    config := DefaultConfig;
    var engine := DefaultEngine;
    var stockfish := FindStockfish(env, fs);
    if stockfish == "" {
      stockfish := Join(env.goos, AppDir(env), StockfishFilename(env.goos));
    }
    engine := engine.(path := stockfish);
    config := config.(uciEngines := [engine]);
  }

  /**
    The default configuration satisfies every role lookup with its single
    engine, and MakeDefault never leaves the engine path empty.
   */
  lemma DefaultRolesResolve(env: Env, fs: Fs)
    ensures var config := DefaultConfig.(uciEngines := [DefaultEngine.(path := DefaultPath(env, fs))]);
      var engine := config.uciEngines[0];
      && Engines.Imported(config.uciWhite, config.uciBlack, config.uciHint, config.uciEngines)
         == Success(Engines.Roster(engine, engine, engine))
      && engine.path != ""
      && engine.name == "stockfish" && engine.hash == 128 && engine.multiPV == 1
      && engine.depth == 1 && engine.moveTime == 100 && engine.options == [UciOption("skill level", "3")]
  {
    var engine := DefaultEngine.(path := DefaultPath(env, fs));
    assert Engines.LastNamed("stockfish", [engine]) == Some(engine) by {
      Engines.LastNamedIsLast("stockfish", [engine], 0);
    }
    var name := StockfishFilename(env.goos);
    assert |Join(env.goos, AppDir(env), name)| >= |name|;
  }

  /** Without a known home directory the fallback is the bare file name. */
  lemma FallbackWithoutHome(env: Env, fs: Fs)
    requires env.home.None? && FirstFound(env.goos, fs, SearchPaths(env, fs)) == ""
    ensures DefaultPath(env, fs) == StockfishFilename(env.goos)
  {
  }
}
