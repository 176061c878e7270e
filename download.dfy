/**
  pkg/download.go: recognising a Stockfish binary by its file name and
  searching the directories of PATH, then the application directory, for
  one. The operating system (runtime.GOOS), the environment and the file
  system are parameters: `Env` holds GOOS, PATH and the home directory,
  `Fs` answers directory listings and file-kind queries.
 */
module Download {
  import opened Wrappers
  import opened Text

  predicate IsWindows(goos: string)
  {
    goos == "windows"
  }

  /** StockfishFilename: the binary's name on the platform. */
  function StockfishFilename(goos: string): string
  {
    if IsWindows(goos) then "stockfish.exe" else "stockfish"
  }

  /** uchessDirName: the application directory's name under the home directory. */
  function UchessDirName(goos: string): string
  {
    if IsWindows(goos) then "uchess" else ".uchess"
  }

  /** pathDelim: the PATH list separator. */
  function PathDelim(goos: string): (d: string)
    ensures |d| == 1
  {
    if IsWindows(goos) then ";" else ":"
  }

  /** The platform's path separator, os.PathSeparator. */
  function Separator(goos: string): char
  {
    if IsWindows(goos) then '\\' else '/'
  }

  /** filepath.Join of two elements: empty elements are dropped, the rest joined by the separator. */
  function Join(goos: string, dir: string, name: string): (p: string)
    ensures dir == [] ==> p == name
    ensures name == [] ==> p == dir
    ensures dir != [] && name != [] ==> |p| == |dir| + 1 + |name| && p[..|dir|] == dir && p[|dir|] == Separator(goos) && p[|dir| + 1..] == name
  {
    if dir == [] then name else if name == [] then dir else dir + [Separator(goos)] + name
  }

  /**
    The three platform names: Windows uses "stockfish.exe", a visible
    "uchess" directory and ';' between PATH entries; every other platform
    "stockfish", the hidden ".uchess" and ':'.
   */
  lemma PlatformNames(goos: string)
    ensures IsWindows(goos) ==> StockfishFilename(goos) == "stockfish.exe" && UchessDirName(goos) == "uchess" && PathDelim(goos) == ";"
    ensures !IsWindows(goos) ==> StockfishFilename(goos) == "stockfish" && UchessDirName(goos) == ".uchess" && PathDelim(goos) == ":"
    ensures UchessDirName(goos)[0] == '.' <==> !IsWindows(goos)
  {
  }

  // ---------------------------------------------------------------------------
  // File-name rules

  /**
    One character of a case-insensitive match against a literal that is a
    lower-case ASCII letter or punctuation: the letter itself, its upper
    case, and for 's' and 'k' the other members of their Unicode
    simple-fold orbits (LATIN SMALL LETTER LONG S, KELVIN SIGN).
   */
  predicate FoldEq(c: char, lit: char)
  {
    c == lit
    || ('a' <= lit <= 'z' && c as int == lit as int - 32)
    || (lit == 's' && c == '\U{017F}')
    || (lit == 'k' && c == '\U{212A}')
  }

  predicate FoldSeq(s: string, lit: string)
  {
    |s| == |lit| && forall i :: 0 <= i < |s| ==> FoldEq(s[i], lit[i])
  }

  /**
    MatchStockfishWin: the regular expression (?i)^stockfish.*\.exe$, i.e.
    "stockfish" at the start and ".exe" at the end, both case-insensitively,
    with anything but a newline in between.
   */
  predicate MatchStockfishWin(f: string)
  {
    |f| >= 13 && FoldSeq(f[..9], "stockfish") && FoldSeq(f[|f| - 4..], ".exe") && '\n' !in f[9..|f| - 4]
  }

  /** Every string of the regular expression's form matches. */
  lemma MatchComplete(p: string, m: string, x: string)
    requires FoldSeq(p, "stockfish") && '\n' !in m && FoldSeq(x, ".exe")
    ensures MatchStockfishWin(p + m + x)
  {
    var f := p + m + x;
    assert f[..9] == p;
    assert f[|f| - 4..] == x;
    assert f[9..|f| - 4] == m;
  }

  /** Every match has the regular expression's form. */
  lemma MatchSound(f: string)
    requires MatchStockfishWin(f)
    ensures f == f[..9] + f[9..|f| - 4] + f[|f| - 4..]
    ensures FoldSeq(f[..9], "stockfish") && '\n' !in f[9..|f| - 4] && FoldSeq(f[|f| - 4..], ".exe")
  {
  }

  /** The shortest match is "stockfish.exe". */
  lemma MatchPlainName()
    ensures MatchStockfishWin("stockfish.exe")
  {
    var f := "stockfish.exe";
    assert f[..9] == "stockfish";
    assert f[|f| - 4..] == ".exe";
    assert f[9..|f| - 4] == [];
  }

  /** Case does not matter, and anything but a newline may come between the ends. */
  lemma MatchUpperCase()
    ensures MatchStockfishWin("Stockfish_12_x64.EXE")
  {
    var f := "Stockfish_12_x64.EXE";
    var head := f[..9];
    assert head == "Stockfish";
    forall i | 0 <= i < 9 ensures FoldEq(head[i], "stockfish"[i]) {
      if i > 0 {
        assert head[i] == "stockfish"[i];
      }
    }
    var tail := f[|f| - 4..];
    assert tail == ".EXE";
    forall i | 0 <= i < 4 ensures FoldEq(tail[i], ".exe"[i]) {
      if i == 0 {
        assert tail[i] == '.';
      }
    }
    assert f[9..|f| - 4] == "_12_x64";
  }

  /** LATIN SMALL LETTER LONG S folds to 's' under (?i). */
  lemma MatchLongS()
    ensures MatchStockfishWin("\U{017F}tockfish.exe")
  {
    var f := "\U{017F}tockfish.exe";
    assert FoldSeq(f[..9], "stockfish") by {
      assert f[..9] == "\U{017F}tockfish";
    }
    assert f[|f| - 4..] == ".exe";
    assert f[9..|f| - 4] == [];
  }

  /** No newline may sit between the two ends, and both ends are anchored. */
  lemma MismatchExamples()
    ensures !MatchStockfishWin("stockfish\n.exe")
    ensures !MatchStockfishWin("stockfish.zip")
    ensures !MatchStockfishWin("my-stockfish.exe")
    ensures !MatchStockfishWin("stockfish.exe ")
  {
    var nl := "stockfish\n.exe";
    assert nl[9..|nl| - 4][0] == '\n';
    var zip := "stockfish.zip";
    assert zip[|zip| - 4..][1] == 'z';
    var my := "my-stockfish.exe";
    assert my[..9][0] == 'm';
    var sp := "stockfish.exe ";
    assert sp[|sp| - 4..][3] == ' ';
  }

  /** Any match is at least as long as "stockfish.exe". */
  lemma MatchLength(f: string)
    requires MatchStockfishWin(f)
    ensures |f| >= |"stockfish.exe"|
  {
  }

  /** isStockfishBin: the case-sensitive prefix "stockfish" and no ".zip" suffix. */
  predicate IsStockfishBin(f: string)
  {
    HasPrefix(f, "stockfish") && !HasSuffix(f, ".zip")
  }

  lemma BinExamples()
    ensures IsStockfishBin("stockfish_12_linux_x64")
    ensures IsStockfishBin("stockfish")
    ensures !IsStockfishBin("stockfish.zip")
    ensures !IsStockfishBin("Stockfish_12")
  {
    var s := "stockfish_12_linux_x64";
    assert s[..9] == "stockfish";
    assert s[|s| - 4..] == "_x64";
    var z := "stockfish.zip";
    assert z[|z| - 4..] == ".zip";
    var cap := "Stockfish_12";
    assert cap[..9][0] == 'S';
  }

  /** The name the binary is installed under is one the searches accept on that platform. */
  lemma InstalledNameIsFound(goos: string)
    ensures IsStockfishBin(StockfishFilename(goos))
    ensures IsWindows(goos) ==> MatchStockfishWin(StockfishFilename(goos))
    ensures !IsWindows(goos) ==> StockfishFilename(goos) == "stockfish"
  {
    MatchPlainName();
    var f := StockfishFilename(goos);
    assert f[..9] == "stockfish";
    if IsWindows(goos) {
      assert f[|f| - 4..] == ".exe";
    }
  }

  // ---------------------------------------------------------------------------
  // Searching directories

  /** The file system: directory listings (None when ReadDir fails), IsFile and FileExists. */
  datatype Fs = Fs(readDir: string -> Option<seq<string>>, isFile: string -> bool, fileExists: string -> bool)

  /** The process environment: runtime.GOOS, $PATH, and the home directory (None when it cannot be found). */
  datatype Env = Env(goos: string, path: string, home: Option<string>)

  /** The platform rule of SearchDirForStockfish for one entry of dir. */
  predicate Accepts(goos: string, fs: Fs, dir: string, name: string)
  {
    if IsWindows(goos) then MatchStockfishWin(name)
    else name == "stockfish" && fs.isFile(Join(goos, dir, name))
  }

  /** The first name in listing order that the rule accepts, or "". */
  function FirstAccepted(goos: string, fs: Fs, dir: string, names: seq<string>): (r: string)
    ensures r == "" <==> forall i :: 0 <= i < |names| ==> !Accepts(goos, fs, dir, names[i])
    ensures r != "" ==> r in names && Accepts(goos, fs, dir, r)
  {
    if names == [] then ""
    else if Accepts(goos, fs, dir, names[0]) then
      assert |names[0]| >= 9;
      names[0]
    else
      var r := FirstAccepted(goos, fs, dir, names[1..]);
      assert forall i :: 1 <= i < |names| ==> names[1..][i - 1] == names[i];
      r
  }

  /** The result of SearchDirForStockfish on dir. */
  function SearchDir(goos: string, fs: Fs, dir: string): string
  {
    match fs.readDir(dir)
    case None => ""
    case Some(names) => FirstAccepted(goos, fs, dir, names)
  }

  /** SearchDirForStockfish: the first accepted entry of dir, "" when there is none or dir cannot be read. */
  method SearchDirForStockfish(goos: string, fs: Fs, dir: string) returns (r: string)
    ensures r == SearchDir(goos, fs, dir)
  {
    var files := fs.readDir(dir);
    if files.None? {
      return "";
    }
    var names := files.value;
    for i := 0 to |names|
      invariant forall j :: 0 <= j < i ==> !Accepts(goos, fs, dir, names[j])
    {
      var name := names[i];
      if IsWindows(goos) && MatchStockfishWin(name) {
        assert FirstAccepted(goos, fs, dir, names) == name by {
          FirstAcceptedAt(goos, fs, dir, names, i);
        }
        return name;
      }
      if !IsWindows(goos) && name == "stockfish" && fs.isFile(Join(goos, dir, name)) {
        FirstAcceptedAt(goos, fs, dir, names, i);
        return name;
      }
    }
    return "";
  }

  /** An accepted entry with no accepted entry before it is what FirstAccepted picks. */
  lemma {:induction false} FirstAcceptedAt(goos: string, fs: Fs, dir: string, names: seq<string>, i: nat)
    requires i < |names| && Accepts(goos, fs, dir, names[i])
    requires forall j :: 0 <= j < i ==> !Accepts(goos, fs, dir, names[j])
    ensures FirstAccepted(goos, fs, dir, names) == names[i]
  {
    if i > 0 {
      assert names[1..][i - 1] == names[i];
      FirstAcceptedAt(goos, fs, dir, names[1..], i - 1);
    }
  }

  /** The first name in listing order passing isStockfishBin. */
  function FirstBin(names: seq<string>): (r: Option<string>)
    ensures r.None? <==> forall i :: 0 <= i < |names| ==> !IsStockfishBin(names[i])
    ensures r.Some? ==> r.value in names && IsStockfishBin(r.value)
  {
    if names == [] then None
    else if IsStockfishBin(names[0]) then Some(names[0])
    else
      var r := FirstBin(names[1..]);
      assert forall i :: 1 <= i < |names| ==> names[1..][i - 1] == names[i];
      r
  }

  /** What findTmpStockfish returns: a path, or the read error. */
  datatype TmpResult = ReadError | Path(path: string)

  /**
    findTmpStockfish: dlDir joined with its first entry passing
    isStockfishBin, "" when there is none, an error when dlDir cannot be read.
   */
  method FindTmpStockfish(goos: string, fs: Fs, dlDir: string) returns (r: TmpResult)
    ensures fs.readDir(dlDir).None? ==> r == ReadError
    ensures fs.readDir(dlDir).Some? ==>
              (var first := FirstBin(fs.readDir(dlDir).value);
               r == Path(if first.Some? then Join(goos, dlDir, first.value) else ""))
  {
    var files := fs.readDir(dlDir);
    if files.None? {
      return ReadError;
    }
    var names := files.value;
    for i := 0 to |names|
      invariant forall j :: 0 <= j < i ==> !IsStockfishBin(names[j])
    {
      if IsStockfishBin(names[i]) {
        FirstBinAt(names, i);
        return Path(Join(goos, dlDir, names[i]));
      }
    }
    return Path("");
  }

  lemma {:induction false} FirstBinAt(names: seq<string>, i: nat)
    requires i < |names| && IsStockfishBin(names[i])
    requires forall j :: 0 <= j < i ==> !IsStockfishBin(names[j])
    ensures FirstBin(names) == Some(names[i])
  {
    if i > 0 {
      assert names[1..][i - 1] == names[i];
      FirstBinAt(names[1..], i - 1);
    }
  }

  /** AppDir: the home directory joined with uchessDirName, "" when the home directory is unknown. */
  function AppDir(env: Env): (d: string)
    ensures env.home.None? ==> d == ""
    ensures env.home.Some? ==> d == Join(env.goos, env.home.value, UchessDirName(env.goos))
  {
    match env.home
    case None => ""
    case Some(home) => Join(env.goos, home, UchessDirName(env.goos))
  }

  /** The directories FindStockfish searches: PATH split on pathDelim, then AppDir when it is non-empty and exists. */
  function SearchPaths(env: Env, fs: Fs): (dirs: seq<string>)
    ensures |dirs| >= 1
  {
    var dirs := Split(env.path, PathDelim(env.goos)[0]);
    var appDir := AppDir(env);
    if appDir != "" && fs.fileExists(appDir) then dirs + [appDir] else dirs
  }

  /**
    The PATH part of the search list is PATH cut at every pathDelim: joined
    back with the delimiter it gives PATH, and no entry contains it.
   */
  lemma PathEntries(env: Env, fs: Fs)
    ensures var d := PathDelim(env.goos)[0];
      var dirs := Split(env.path, d);
      && SearchPaths(env, fs)[..|dirs|] == dirs
      && JoinWith(dirs, d) == env.path
      && forall i :: 0 <= i < |dirs| ==> d !in dirs[i]
  {
    var d := PathDelim(env.goos)[0];
    SplitJoin(env.path, d);
    SplitPieces(env.path, d);
    var dirs := Split(env.path, d);
    assert (dirs + [AppDir(env)])[..|dirs|] == dirs;
  }

  /** The first directory, in order, where the search finds the binary, joined with the name found; "" if none. */
  function FirstFound(goos: string, fs: Fs, dirs: seq<string>): string
  {
    if dirs == [] then ""
    else
      var found := SearchDir(goos, fs, dirs[0]);
      if found != "" then Join(goos, dirs[0], found) else FirstFound(goos, fs, dirs[1..])
  }

  /** FindStockfish: the first hit over SearchPaths, as a full path, or "". */
  method FindStockfish(env: Env, fs: Fs) returns (r: string)
    ensures r == FirstFound(env.goos, fs, SearchPaths(env, fs))
  {
    var paths := Split(env.path, PathDelim(env.goos)[0]);
    var appDir := AppDir(env);
    if appDir != "" && fs.fileExists(appDir) {
      paths := paths + [appDir];
    }
    assert paths == SearchPaths(env, fs);
    var i := 0;
    while i < |paths|
      invariant 0 <= i <= |paths|
      invariant FirstFound(env.goos, fs, paths) == FirstFound(env.goos, fs, paths[i..])
    {
      var searchResult := SearchDirForStockfish(env.goos, fs, paths[i]);
      if searchResult != "" {
        return Join(env.goos, paths[i], searchResult);
      }
      assert paths[i..][1..] == paths[i + 1..];
      i := i + 1;
    }
    return "";
  }

  /**
    FirstFound returns the hit of the first directory whose search succeeds,
    and "" exactly when no directory's search succeeds.
   */
  lemma {:induction false} FirstFoundIsFirst(goos: string, fs: Fs, dirs: seq<string>)
    ensures FirstFound(goos, fs, dirs) == "" <==> forall i :: 0 <= i < |dirs| ==> SearchDir(goos, fs, dirs[i]) == ""
    ensures forall i :: 0 <= i < |dirs| && SearchDir(goos, fs, dirs[i]) != ""
                        && (forall j :: 0 <= j < i ==> SearchDir(goos, fs, dirs[j]) == "")
                        ==> FirstFound(goos, fs, dirs) == Join(goos, dirs[i], SearchDir(goos, fs, dirs[i]))
  {
    if dirs != [] {
      FirstFoundIsFirst(goos, fs, dirs[1..]);
      assert forall i :: 1 <= i < |dirs| ==> dirs[1..][i - 1] == dirs[i];
      var found := SearchDir(goos, fs, dirs[0]);
      if found != "" {
        assert |Join(goos, dirs[0], found)| >= |found|;
      }
    }
  }

  /** The application directory is searched only after every PATH directory has missed. */
  lemma AppDirSearchedLast(env: Env, fs: Fs)
    ensures var pathDirs := Split(env.path, PathDelim(env.goos)[0]);
      (exists i :: 0 <= i < |pathDirs| && SearchDir(env.goos, fs, pathDirs[i]) != "")
      ==> FirstFound(env.goos, fs, SearchPaths(env, fs)) == FirstFound(env.goos, fs, pathDirs)
  {
    var pathDirs := Split(env.path, PathDelim(env.goos)[0]);
    if exists i :: 0 <= i < |pathDirs| && SearchDir(env.goos, fs, pathDirs[i]) != "" {
      FirstFoundPrefix(env.goos, fs, pathDirs, SearchPaths(env, fs)[|pathDirs|..]);
      assert SearchPaths(env, fs) == pathDirs + SearchPaths(env, fs)[|pathDirs|..];
    }
  }

  /** Directories after the first hit do not matter. */
  lemma {:induction false} FirstFoundPrefix(goos: string, fs: Fs, dirs: seq<string>, more: seq<string>)
    requires exists i :: 0 <= i < |dirs| && SearchDir(goos, fs, dirs[i]) != ""
    ensures FirstFound(goos, fs, dirs + more) == FirstFound(goos, fs, dirs)
  {
    assert (dirs + more)[0] == dirs[0];
    if SearchDir(goos, fs, dirs[0]) == "" {
      assert (dirs + more)[1..] == dirs[1..] + more;
      var i :| 0 <= i < |dirs| && SearchDir(goos, fs, dirs[i]) != "";
      assert dirs[1..][i - 1] == dirs[i];
      FirstFoundPrefix(goos, fs, dirs[1..], more);
    }
  }
}
