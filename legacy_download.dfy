/**
  download.go, the older copy of the Stockfish search. Its MatchStockfishWin,
  isStockfishBin and stockfishFilename are the same code as in
  pkg/download.go and are modelled by the Download members; its
  FindStockfish(dir) is the directory scan Download.SearchDirForStockfish
  models. What differs is the search over directories in
  FindOrFetchStockfish: the application directory is <home>/uchess on every
  platform, it is appended whenever the home directory is known, and a hit
  is reported as directory, separator, name, written out without
  filepath.Join.
 */
module LegacyDownload {
  import opened Wrappers
  import opened Text
  import opened Download

  /** The directory FindOrFetchStockfish appends: home, separator, "uchess". */
  function UchessDir(goos: string, home: string): string
  {
    home + [Separator(goos)] + "uchess"
  }

  /** The directories searched: PATH split on the platform's delimiter, then UchessDir when the home directory is known. */
  function LegacySearchPaths(env: Env): (dirs: seq<string>)
    ensures |dirs| >= 1
  {
    var dirs := Split(env.path, PathDelim(env.goos)[0]);
    if env.home.Some? then dirs + [UchessDir(env.goos, env.home.value)] else dirs
  }

  /** The first directory whose scan finds the binary, as dir + separator + name; None when no directory does. */
  function LegacyFirstFound(goos: string, fs: Fs, dirs: seq<string>): Option<string>
  {
    if dirs == [] then None
    else
      var found := SearchDir(goos, fs, dirs[0]);
      if found != "" then Some(dirs[0] + [Separator(goos)] + found) else LegacyFirstFound(goos, fs, dirs[1..])
  }

  /**
    The search part of FindOrFetchStockfish: the path found, or None when the
    search falls through to the install prompt.
   */
  method FindOrFetchSearch(env: Env, fs: Fs) returns (r: Option<string>)
    ensures r == LegacyFirstFound(env.goos, fs, LegacySearchPaths(env))
  {
    var paths := Split(env.path, PathDelim(env.goos)[0]);
    if env.home.Some? {
      paths := paths + [UchessDir(env.goos, env.home.value)];
    }
    var i := 0;
    while i < |paths|
      invariant 0 <= i <= |paths|
      invariant LegacyFirstFound(env.goos, fs, paths) == LegacyFirstFound(env.goos, fs, paths[i..])
    {
      var searchResult := SearchDirForStockfish(env.goos, fs, paths[i]);
      if searchResult != "" {
        return Some(paths[i] + [Separator(env.goos)] + searchResult);
      }
      assert paths[i..][1..] == paths[i + 1..];
      i := i + 1;
    }
    return None;
  }

  /** No directory of the list that is the empty string holds a hit. */
  predicate NoEmptyHit(goos: string, fs: Fs, dirs: seq<string>)
  {
    forall i :: 0 <= i < |dirs| && SearchDir(goos, fs, dirs[i]) != "" ==> dirs[i] != ""
  }

  /**
    Over the same directories the two searches find the same file, as long as
    no directory with a hit is the empty string (where the older copy writes
    a leading separator that filepath.Join does not).
   */
  lemma {:induction false} SameDirsSameResult(goos: string, fs: Fs, dirs: seq<string>)
    requires NoEmptyHit(goos, fs, dirs)
    ensures var pkg := FirstFound(goos, fs, dirs);
      LegacyFirstFound(goos, fs, dirs) == if pkg == "" then None else Some(pkg)
  {
    if dirs != [] {
      assert forall i :: 1 <= i < |dirs| ==> dirs[1..][i - 1] == dirs[i];
      SameDirsSameResult(goos, fs, dirs[1..]);
      var found := SearchDir(goos, fs, dirs[0]);
      if found != "" {
        assert dirs[0] != "";
        assert |Join(goos, dirs[0], found)| > 0;
      }
    }
  }

  /** Directories that cannot be listed add nothing to either search. */
  lemma {:induction false} UnlistedTail(goos: string, fs: Fs, dirs: seq<string>, more: seq<string>)
    requires forall i :: 0 <= i < |more| ==> fs.readDir(more[i]).None?
    ensures FirstFound(goos, fs, dirs + more) == FirstFound(goos, fs, dirs)
    ensures LegacyFirstFound(goos, fs, dirs + more) == LegacyFirstFound(goos, fs, dirs)
  {
    if dirs == [] {
      assert dirs + more == more;
      UnlistedMisses(goos, fs, more);
    } else {
      assert (dirs + more)[0] == dirs[0];
      assert (dirs + more)[1..] == dirs[1..] + more;
      UnlistedTail(goos, fs, dirs[1..], more);
    }
  }

  lemma {:induction false} UnlistedMisses(goos: string, fs: Fs, dirs: seq<string>)
    requires forall i :: 0 <= i < |dirs| ==> fs.readDir(dirs[i]).None?
    ensures FirstFound(goos, fs, dirs) == "" && LegacyFirstFound(goos, fs, dirs) == None
  {
    if dirs != [] {
      assert forall i :: 1 <= i < |dirs| ==> dirs[1..][i - 1] == dirs[i];
      UnlistedMisses(goos, fs, dirs[1..]);
    }
  }

  /**
    On Windows the two copies agree: with a known, non-empty home directory,
    the older search reports the path FindStockfish returns, and nothing when
    it returns "". This needs that a directory which does not exist cannot be
    listed, and that no empty PATH entry holds a hit.
   */
  lemma WindowsSearchesAgree(env: Env, fs: Fs)
    requires IsWindows(env.goos) && env.home.Some? && env.home.value != ""
    requires !fs.fileExists(AppDir(env)) ==> fs.readDir(AppDir(env)).None?
    requires NoEmptyHit(env.goos, fs, Split(env.path, PathDelim(env.goos)[0]))
    ensures var pkg := FirstFound(env.goos, fs, SearchPaths(env, fs));
      LegacyFirstFound(env.goos, fs, LegacySearchPaths(env)) == if pkg == "" then None else Some(pkg)
  {
    var dirs := Split(env.path, PathDelim(env.goos)[0]);
    var appDir := AppDir(env);
    assert appDir == UchessDir(env.goos, env.home.value);
    assert LegacySearchPaths(env) == dirs + [appDir];
    if fs.fileExists(appDir) {
      assert SearchPaths(env, fs) == dirs + [appDir];
      var all := dirs + [appDir];
      assert appDir != "";
      forall i | 0 <= i < |all| && SearchDir(env.goos, fs, all[i]) != ""
        ensures all[i] != ""
      {
        if i < |dirs| {
          assert all[i] == dirs[i];
        } else {
          assert all[i] == appDir;
        }
      }
      SameDirsSameResult(env.goos, fs, all);
    } else {
      assert SearchPaths(env, fs) == dirs;
      UnlistedTail(env.goos, fs, dirs, [appDir]);
      SameDirsSameResult(env.goos, fs, dirs);
    }
  }

  /**
    Elsewhere they differ: with an empty PATH and a Stockfish binary in
    <home>/uchess, the older copy finds it while FindStockfish, which looks in
    <home>/.uchess, does not.
   */
  lemma UnixAppDirsDiffer(fs: Fs)
    requires fs.readDir("/home/u/uchess") == Some(["stockfish"]) && fs.isFile("/home/u/uchess/stockfish")
    requires fs.readDir("") == None && fs.readDir("/home/u/.uchess") == None
    ensures var env := Env("linux", "", Some("/home/u"));
      && LegacyFirstFound("linux", fs, LegacySearchPaths(env)) == Some("/home/u/uchess/stockfish")
      && FirstFound("linux", fs, SearchPaths(env, fs)) == ""
  {
    var env := Env("linux", "", Some("/home/u"));
    assert Split("", ':') == [""];
    assert UchessDir("linux", "/home/u") == "/home/u/uchess";
    assert LegacySearchPaths(env) == ["", "/home/u/uchess"];
    assert Join("linux", "/home/u/uchess", "stockfish") == "/home/u/uchess/stockfish";
    assert Accepts("linux", fs, "/home/u/uchess", "stockfish");
    assert SearchDir("linux", fs, "/home/u/uchess") == "stockfish";
    assert SearchDir("linux", fs, "") == "";
    assert LegacyFirstFound("linux", fs, ["/home/u/uchess"]) == Some("/home/u/uchess/stockfish");
    assert ["", "/home/u/uchess"][1..] == ["/home/u/uchess"];
    assert AppDir(env) == "/home/u/.uchess";
    UnlistedMisses("linux", fs, ["", "/home/u/.uchess"]);
    UnlistedMisses("linux", fs, [""]);
    assert SearchPaths(env, fs) == [""] || SearchPaths(env, fs) == ["", "/home/u/.uchess"];
  }
}
