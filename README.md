# uchess core, modelled in Dafny

uchess is a terminal chess client written in Go. A human or a UCI engine plays each side, and a third engine gives hints. This project models the rule code around the chess library, the engine processes and the screen:

- **Material advantage** (`util.dfy`, module `Util`, pkg/util.go). It counts captured pieces against the starting complement, cancels captures piece for piece, and renders the leading side's score differential as `+N`.
- **Input buffer** (`input.dfy`, class `InputBuffer.Input`, pkg/input.go). This is the move prompt's byte buffer. Its capacity is 10 bytes, and backspace removes a whole UTF-8 code point. The UTF-8 encoding and decoding it relies on are in `utf8.dfy`.
- **Command dispatch and game transitions** (`session.dfy`, module `Session`, pkg/cmd.go). It covers keyword dispatch, undo by replay, reset, resignation, hints and engine moves.
  - The chess library is an oracle (`Chess.Rules`): legality, move decoding and FEN.
  - The game is a value: its start, its move list and its outcome (`chess.dfy`).
- **Engine roles** (`engines.dfy`, pkg/engine.go; `legacy_engines.dfy`, engine.go). It covers the last-match-wins role lookup, the order of configuration commands, and the start-up order with its first-failure abort. Starting and running an engine is a `Launcher` oracle.
- **Configuration** (`configs.dfy`, pkg/config.go; `legacy_configs.dfy`, config.go). It covers the theme search, the merge of built-in and user themes, and the default records.
- **Start-up** (`startup.dfy`, pkg/init.go). It covers the engine basename used as a player name, the two name setters, and the resolution of flags against the configuration file.
  - The OS user is an optional oracle value.
  - Reading the configuration file is an oracle.
  - Exits and printing become an `Outcome` value.
- **Stockfish search** (`download.dfy`, pkg/download.go; `legacy_download.dfy`, download.go). It covers the file-name predicates, the platform constants, and the first-match searches over directory listings.
  - Listings, `IsFile` and `FileExists` are oracles (`Fs`).
  - `runtime.GOOS`, `PATH` and the home directory are parameters (`Env`).

Shared pieces: `records.dfy` holds the configuration records, `text.dfy` the Go string functions the code calls (`strings.Repeat`, `strings.Split`, `strings.TrimSpace`, `strconv`/`%v` rendering), and `wrappers.dfy` the `Option`/`Result` types.

The root files engine.go, config.go and download.go are an older copy of the pkg/ code. Where a function is line-for-line the same, its row below points to the pkg/ member. Where the older copy differs, it has its own module, with lemmas saying where the two agree and where they part.

Go panics are modelled as `None` or as a `Failure`. These cases are:

- a negative `strings.Repeat` count in `getCapturedPieces` and `Input.Current`;
- a failed `user.Current()`;
- a missing engine role.

## Model

| member | source | states |
|---|---|---|
| Util.GetSquare | pkg/util.go:15-17 | for files and ranks 0..7 the square is in 0..63, with square / 8 the rank and square % 8 the file |
| Util.SquareColorParity | pkg/util.go:20-25 | a square is dark exactly when its rank and file have the same parity |
| Util.CornerColors | pkg/util.go:20-25 | a1 (square 0) is dark and h1 is light |
| Util.FileNeighbourColors | pkg/util.go:20-25 | horizontally adjacent squares on one rank have opposite colours |
| Util.RankNeighbourColors | pkg/util.go:20-25 | vertically adjacent squares on one file have opposite colours |
| Util.IsCPU | pkg/util.go:34-40 | a side is the CPU exactly when its configured piece input is "cpu" |
| Util.IsInteractive | pkg/util.go:29-31 | the game is interactive unless both sides are the CPU |
| Util.GetCapturedPieces | pkg/util.go:84-97 | defined (no negative Repeat panic) exactly when no letter exceeds its starting count 8/2/2/2/1/1; the result holds only the six letters |
| Util.CapturedCounts | pkg/util.go:84-97 | each letter occurs in the result as often as it is missing from the board: starting count minus board count |
| Util.CapturedOrdered | pkg/util.go:84-97 | the captured letters are grouped in the order pawn, bishop, knight, rook, queen, king |
| Util.GetCaptured | pkg/util.go:99-103 | defined exactly when both colours' captured lists are defined, and then the pair is the white list followed by the black list |
| Util.BlackQueenCaptured | pkg/util.go:99-103 | a full board without the black queen has captured ("", "q") |
| Util.GetPiece | pkg/util.go:105-121 | a glyph is produced exactly for the twelve piece letters |
| Util.GetPieceCaseBlind | pkg/util.go:105-121 | both cases of a letter give the same (white) glyph |
| Util.GlyphsReadBack | pkg/util.go:105-164 | rendering advantage letters as glyphs keeps the length, and each glyph reads back as its lowercase letter |
| Util.RenderGlyphs | pkg/util.go:154-163 | the accumulating loop builds exactly the glyph string of the letters |
| Util.RemoveIndex | pkg/util.go:123-125 | the result is the sequence with the one element at the index dropped, everything else in order |
| Util.FindStr | pkg/util.go:127-134 | returns the index of the first occurrence, and -1 exactly when the element is absent |
| Util.RemoveFirst | pkg/util.go:136-145 | removing the first occurrence takes exactly one copy of that element out of the multiset |
| Util.RemoveAtFirst | pkg/util.go:123-142 | removeIndex at findStr's index is removal of the first occurrence |
| Util.Disjoin | pkg/util.go:136-145 | the loop computes the lowercased first string with one matching occurrence struck per letter of the second |
| Util.StruckMultiset | pkg/util.go:136-145 | disjoin is multiset difference: lower(a) minus lower(b) |
| Util.StruckSubsequence | pkg/util.go:136-145 | the surviving letters keep their relative order (a subsequence of lower(a)) |
| Util.DiffPieces | pkg/util.go:147-149 | each side's advantage is the multiset difference of the two capture lists, and no letter survives on both sides |
| Util.Advantages | pkg/util.go:152-164 | the two advantage strings are the glyphs of the cancelled capture lists, and are undefined exactly when the captured counts panic |
| Util.AdvantagesDisjoint | pkg/util.go:147-164 | no piece letter appears in both advantages |
| Util.ScoreByCounts | pkg/util.go:168-182 | the score is pawns + 3 knights + 3 bishops + 5 rooks + 9 queens; kings and every other rune, uppercase included, count 0 |
| Util.ScorePieces | pkg/util.go:168-182 | the running sum equals the piece-value score of the string |
| Util.ScoreTextReadsBack | pkg/util.go:190-202 | the differential text is empty exactly for a non-positive lead, and otherwise is "+" followed by the lead in decimal |
| Util.DifferentialsExclusive | pkg/util.go:185-203 | at most one differential is non-empty, it belongs to the side with the higher score, and it shows the positive difference |
| Util.ScoreStr | pkg/util.go:185-203 | the method returns the score lines of the board (None where a count panics) |
| Util.ScoreLinesExclusive | pkg/util.go:185-203 | the score lines name only the leading side, with its lead over the other side's advantage |
| Util.StartingPositionEven | pkg/util.go:185-203 | the full starting complement gives no advantage and ("", "") |
| Util.BlackQueenMissing | pkg/util.go:185-203 | a full board missing only the black queen gives advantage "q", glyph ♕ and ("+9", "") |
| Util.PromotionPanics | pkg/util.go:84-97 | a second white queen (after a promotion) makes the Repeat count negative, so Advantages and ScoreStr panic |
| Utf8.TrimLastChar | pkg/input.go:17-23 | the result is a prefix of the buffer, and an empty buffer stays empty |
| Utf8.TrimAppended | pkg/input.go:17-23 | trimming after appending one encoded rune gives back exactly the earlier bytes |
| Utf8.EncodeRune | pkg/input.go:33 | a rune is 1 to 4 bytes, one byte exactly for ASCII, with a lead byte and continuation bytes otherwise |
| Utf8.DecodeEncoded | pkg/input.go:17-33 | decoding an encoded rune gives the rune back (invalid runes as U+FFFD) and its length |
| InputBuffer.Input.constructor | pkg/input.go:26-28 | a new input has an empty buffer |
| InputBuffer.Input.Append | pkg/input.go:31-36 | below 10 bytes the rune's UTF-8 encoding is appended; at 10 or more nothing changes; the new buffer is returned |
| InputBuffer.Input.Backspace | pkg/input.go:39-42 | the last whole code point is removed, and an empty buffer stays empty |
| InputBuffer.Input.AppendThenBackspace | pkg/input.go:17-42 | an accepted append followed by a backspace restores the earlier buffer |
| InputBuffer.Input.Current | pkg/input.go:45-47 | defined exactly when the buffer holds at most 10 bytes: then 10 bytes, the buffer padded with spaces; otherwise the negative Repeat panics |
| InputBuffer.Input.Length | pkg/input.go:50-52 | the length is in bytes, at most 13, and at most 10 when all bytes are ASCII |
| InputBuffer.Input.Clear | pkg/input.go:55-58 | the buffer becomes empty and the empty string is returned |
| InputBuffer.BufferBounds | pkg/input.go:31-36 | every buffer Append can build holds at most 13 bytes, and at most 10 if only ASCII was appended |
| InputBuffer.WideRuneOverflow | pkg/input.go:31-47 | nine ASCII runes and then é make an 11-byte buffer, which Current cannot pad |
| Session.SelectEngine | pkg/cmd.go:15-27 | White to move gets the white engine and its configuration, Black to move the black pair |
| Session.SearchRequest | pkg/cmd.go:53-58 | the go command carries the configured depth and the move time in milliseconds, and the search moves only when configured |
| Session.EngMove | pkg/cmd.go:47-71 | a failed run gives the engine-command error and a rejected best move the engine-move error, each with the game unchanged; success appends exactly the best move and clears the label to 32 spaces |
| Session.Step | pkg/cmd.go:77-78 | a legal move is appended and an illegal one leaves the game as it was |
| Session.UndoMove | pkg/cmd.go:73-81 | the result replays all but the last two moves on a fresh standard game |
| Session.UndoPlayedGame | pkg/cmd.go:73-81 | for a game played legally from the start, undo leaves exactly the first len-2 moves on the standard start |
| Session.UndoShortGame | pkg/cmd.go:73-81 | with fewer than two moves undo gives a fresh game with no moves |
| Session.ReplayLegalLine | pkg/cmd.go:74-79 | replaying a legal line from a fresh game reproduces its moves |
| Session.ResetGame | pkg/cmd.go:83-86 | reset gives a fresh game with no moves, whatever the input |
| Session.ResignGame | pkg/cmd.go:118-121 | the side to move resigns: the moves are unchanged and the other side wins by resignation, unless the game already has an outcome, which is then left unchanged |
| Session.Quit | pkg/cmd.go:148-150 | the quit message is "quit" |
| Session.HintCmd | pkg/cmd.go:123-146 | a failed run reports the engine-command error and keeps the old hint; otherwise the best move becomes the hint; the game never changes |
| Session.Classify | pkg/cmd.go:156-180 | each of the eight keywords gives exactly its own command (back, save, image, fen, reset, resign, hint, quit); any other trimmed line is a move text passed through unchanged |
| Session.PaddedKeyword | pkg/cmd.go:154-158 | surrounding whitespace is trimmed before matching, so " back\n" is the back command |
| Session.CapitalisedKeyword | pkg/cmd.go:156-158 | keywords are case-sensitive, so "Back" is tried as a move |
| Session.ProcessCmd | pkg/cmd.go:153-188 | back, reset and resign replace the game and clear the label to 80 spaces; save, image, fen, hint and quit keep the game; an illegal move keeps the game with the illegal-move message; a legal move appends exactly that move |
| Engines.LastNamed | pkg/engine.go:90-105 | a role is found exactly when some entry has its name, and the entry returned has that name |
| Engines.LastNamedIsLast | pkg/engine.go:90-105 | when several entries share a name, the last one is returned |
| Engines.ImportEngines | pkg/engine.go:86-120 | the scan with overwritten locals and found flags computes the role lookup: the last match per role, or the first missing role; the older copy in engine.go:81-115 is the same scan |
| Engines.ImportedNames | pkg/engine.go:86-119 | on success each role's engine carries the requested name and comes from the list |
| Engines.ImportFailures | pkg/engine.go:107-117 | import fails exactly when a role's name is absent, and reports the first absent role in the order white, black, hint |
| Engines.SharedEngine | pkg/engine.go:87-119 | roles naming the same engine get equal copies of it |
| Engines.SetupCommands | pkg/engine.go:41-50 | uci, isready, then hash, ponder, ownbook and multipv, then ucinewgame |
| Engines.SetupValues | pkg/engine.go:42-45 | the option values are the configured numbers, negative ones included, as signed decimals that read back as those numbers, and "true" exactly for a set flag |
| Engines.OptionEvents | pkg/engine.go:51-54 | one ProcessResponse call per custom option, in list order, carrying its name and value (a handler call, not a command sent to the engine) |
| Engines.CfgEngines | pkg/engine.go:41-55 | one run of the seven setup commands; the custom options follow exactly when that run succeeds |
| Engines.BringUp | pkg/engine.go:64-80 | starting a role launches its engine path first, and a failure names that role |
| Engines.InitEngines | pkg/engine.go:60-83 | the start-up log and result are those of importing the roles and then starting white, black and hint in order |
| Engines.BringUpLaunchesOnce | pkg/engine.go:64-80 | starting one role launches exactly its path once |
| Engines.StartRosterLaunchOrder | pkg/engine.go:60-83 | engines start in the order white, black, hint, and the first start failure stops the rest |
| Engines.MissingRoleLaunchesNothing | pkg/engine.go:61-117 | a missing role aborts before any engine is launched |
| LegacyEngines.CfgEngines | engine.go:38-50 | one SetOptions from hash, ponder, ownbook and multipv, then one SendOption per custom option in list order |
| LegacyEngines.CustomOptionsAgree | engine.go:46-49 | the i-th SendOption of the older copy carries the name and value of the i-th ProcessResponse call of the newer one |
| LegacyEngines.StandardOptionsAgree | engine.go:39-44 | the older SetOptions carries the values the newer copy renders into its setoption commands |
| Configs.HasTheme | pkg/config.go:32-39 | true exactly when some theme has exactly the name; false on an empty list; config.go:29-36 is the same code |
| Configs.Survivors | pkg/config.go:146-150 | a built-in survives exactly when no user theme has its name |
| Configs.MergeThemes | pkg/config.go:142-155 | the merged list is the non-overridden built-ins in built-in order followed by all user themes; nothing else in the configuration changes; the merge in config.go:123-136 is the same code |
| Configs.SurvivorsAppend | pkg/config.go:146-150 | the filter keeps the built-ins' relative order |
| Configs.MergedShape | pkg/config.go:145-154 | no surviving built-in shares a name with a user theme, and the user themes close the list in their order |
| Configs.DroppedExactlyWhenOverridden | pkg/config.go:146-150 | a built-in is dropped exactly when a user theme has its name; the older merge in config.go:126-130 drops the same way |
| Configs.MergedLength | pkg/config.go:142-155 | merged length is the user themes plus the non-overridden built-ins; nothing is dropped exactly when no name is shared |
| Configs.DefaultPath | pkg/config.go:106-112 | the engine path is the search result, or AppDir joined with the Stockfish file name when the search finds nothing |
| Configs.MakeDefault | pkg/config.go:103-117 | the default configuration with exactly one engine, the default engine at the default path |
| Configs.DefaultRolesResolve | pkg/config.go:42-117 | the one default engine (stockfish, hash 128, multipv 1, depth 1, movetime 100, skill level 3) satisfies all three roles, and its path is never empty |
| Configs.FallbackWithoutHome | pkg/config.go:110-112 | with no home directory and no hit, the fallback path is the bare file name |
| LegacyConfigs.UciEngines | config.go:39-56 | one engine, at the given path |
| LegacyConfigs.DefaultRolesResolve | config.go:39-97 | the older defaults resolve every role to their engine (hash 128, multipv 4, depth 0, movetime 3000, skill level 20) and differ from the newer ones only in the engine list |
| Startup.UciCmd | pkg/init.go:12-15 | the result is a suffix of the path containing no separator |
| Startup.UciCmdAfterLast | pkg/init.go:12-15 | the result is what follows the last separator, and "" when the path ends in one |
| Startup.UciCmdNoSeparator | pkg/init.go:12-15 | a path without separators is returned whole |
| Startup.UciCmdWindowsPath | pkg/init.go:12-15 | backslash separates only on Windows |
| Startup.SetBlackPieceName | pkg/init.go:27-33 | a CPU black is named after its engine's basename, otherwise after the OS user (which panics when unknown); no other field changes |
| Startup.SetWhitePieceName | pkg/init.go:36-42 | the same rule for the white fields |
| Startup.SettersSymmetric | pkg/init.go:27-42 | the white setter on a colour-swapped configuration names the player as the black setter does |
| Startup.FillNames | pkg/init.go:97-103 | only empty names are filled in, and no other field changes |
| Startup.BaseConfig | pkg/init.go:78-95 | with a file, its piece inputs replace the flags; without one, the flags are used |
| Startup.Init | pkg/init.go:45-106 | -tmpl prints the default, -themes lists the theme names, a side other than human or cpu prints usage; with no file, a default engine path that is not a file and a search that finds nothing, the install prompt runs and the program exits; otherwise the resolved configuration with names filled in (a search hit that is not a file, as Windows allows, starts the game without a prompt) |
| Startup.FileSidesUnchecked | pkg/init.go:78-95 | a file's piece input is taken without the human/cpu check |
| Startup.DefaultPlayers | pkg/init.go:94-103 | by default white is named after the OS user and black after the engine's basename |
| Download.PlatformNames | pkg/download.go:193-272 | on Windows "stockfish.exe", "uchess" and ";"; elsewhere "stockfish", ".uchess" and ":" |
| Download.Join | pkg/download.go:110-288 | empty parts are dropped, otherwise directory, separator, name |
| Download.MatchComplete | pkg/download.go:95-98 | every "stockfish", any text without a newline, ".exe", in any case, matches |
| Download.MatchSound | pkg/download.go:95-98 | every match consists of exactly those three parts |
| Download.MatchLength | pkg/download.go:95-98 | the shortest match is as long as "stockfish.exe" |
| Download.MismatchExamples | pkg/download.go:95-98 | a newline inside, the wrong suffix, a prefix before "stockfish" or a trailing space all fail the match |
| Download.MatchLongS | pkg/download.go:95-98 | case folding follows Unicode simple folds, so ſ (U+017F) matches s |
| Download.BinExamples | pkg/download.go:141-143 | the prefix "stockfish" is case-sensitive, and a ".zip" suffix is rejected |
| Download.InstalledNameIsFound | pkg/download.go:95-198 | the installed file name passes both predicates |
| Download.FirstAccepted | pkg/download.go:109-119 | "" exactly when no entry is accepted; otherwise an accepted entry of the listing |
| Download.FirstAcceptedAt | pkg/download.go:109-119 | the first accepted entry in listing order is returned |
| Download.SearchDirForStockfish | pkg/download.go:103-120 | the scan returns the first entry passing the platform rule (the regex on Windows; the exact name plus a regular-file check elsewhere), or "" on a read error; the older FindStockfish(dir) in download.go:103-121 is the same scan |
| Download.FirstBin | pkg/download.go:183-189 | none exactly when no entry passes isStockfishBin |
| Download.FirstBinAt | pkg/download.go:183-189 | the first passing entry in listing order is taken |
| Download.FindTmpStockfish | pkg/download.go:176-190 | a read error is reported; otherwise the directory joined with the first binary, or "" |
| Download.AppDir | pkg/download.go:257-265 | "" without a home directory, else home joined with the platform's directory name |
| Download.PathEntries | pkg/download.go:277-283 | the search starts with PATH split on the delimiter, whose entries join back to PATH and contain no delimiter |
| Download.FindStockfish | pkg/download.go:276-292 | the search over PATH, then AppDir when it is non-empty and exists, returns the first hit joined with its directory, or "" |
| Download.FirstFoundIsFirst | pkg/download.go:285-291 | "" exactly when every directory misses; otherwise the first hitting directory joined with its hit |
| Download.AppDirSearchedLast | pkg/download.go:279-291 | when a PATH directory hits, the application directory plays no part |
| LegacyDownload.FindOrFetchSearch | download.go:251-280 | PATH in order, then home/uchess when home is known; the first hit as directory + separator + name, else the fall-through to install |
| LegacyDownload.SameDirsSameResult | download.go:273-280 | over the same directories, the older search finds what FindStockfish finds, unless a hit is in an empty directory name |
| LegacyDownload.WindowsSearchesAgree | download.go:251-280 | on Windows, with a known home, the two copies find the same file |
| LegacyDownload.UnixAppDirsDiffer | download.go:262-269 | elsewhere they differ: the older copy looks in home/uchess, the newer in home/.uchess |
| Text.TrimSpace | pkg/cmd.go:154 | the trimmed line is the infix of the input left after its leading and trailing whitespace, and neither starts nor ends with whitespace |
| Text.SplitJoin | pkg/download.go:279 | splitting PATH and joining it with the same delimiter gives PATH back |
| Text.DecimalRoundTrip | pkg/util.go:195-201 | the decimal rendering of a natural number reads back as that number |
| Text.SignedRoundTrip | pkg/engine.go:42-45 | the %v rendering of every int, negative ones included, is a signed decimal that reads back as that int |

## Left out

- WinProb, AtScale and RoundNearest (pkg/util.go:43-58, 206-208) are floating-point code and are not modelled.
- Timestamp, InCheck and EmojiForPlayer are not modelled. Timestamp needs a clock, InCheck needs the chess library's move tags, and EmojiForPlayer is display text.
- EngScore (pkg/cmd.go:31-44) is not modelled: it reads scores out of the UCI library's search results.
- saveGame and saveImage (pkg/cmd.go:88-116) write files. They are `Host` oracles whose message is passed through. The board rendering inside hint is left out.
- The internals of uci.New/NewEngine and eng.Run are left out. A run is one oracle call that succeeds or fails as a whole, so a partly executed command list is not represented.
- The library's handling of `setoption` for custom options (ProcessResponse) is a `Respond` event in the log; it does not fail the start-up.
- LegacyEngines.CustomOptionsAgree: agreement is stated on names, values and order only. In pkg/engine.go:52-54 the custom options go through `CmdSetOption.ProcessResponse`, which in the UCI library reads responses and sends nothing, so the newer copy transmits no custom option while engine.go:47-49 does; the two copies differ in effect, and the library's code is not part of this model.
- The root InitEngines (engine.go:55-78) starts the engines in the same order as the pkg/ copy and is not modelled separately.
- The parsing of the searchMoves text into moves (pkg/cmd.go:55-58) is not modelled: the text is forwarded as it is.
- Session.SearchRequest: multiplying MoveTime by time.Millisecond is exact here; the int64 overflow of a huge MoveTime is not modelled.
- The in-place updates of chess.Game, and aliasing through the *chess.Game pointer, are not modelled: each operation returns the updated game value.
- Startup.SetBlackPieceName, Startup.SetWhitePieceName: these return a new Config instead of writing through a pointer; a failed user lookup (a Go panic) is None.
- Startup.UciCmd: Windows UNC volume names (\\host\share) are not treated as volumes; drive letters are.
- Download.Join: filepath.Join's Clean step (removing "..", "." and doubled separators) is not modelled; the separator is written between non-empty parts.
- Text.Lower lowercases ASCII letters only, which is all the piece letters need; strings.ToLower's full Unicode mapping is not modelled.
- Download.FirstAccepted, Download.FirstBin: their contracts say the result is some accepted entry; that it is the first one in listing order is the separate FirstAcceptedAt and FirstBinAt lemmas.
- HTTP downloads, zip extraction, temporary directories, renames, progress output, the interactive install prompt and os.Exit are I/O and are left out. In Init, the install prompt and its exit are one outcome, InstallPrompted, whichever answer the user gives.
- ReadThemes (embedded theme files), the JSON decoding in ReadConfig, ConfigJSON and ensureUchessDir are left out. The built-in themes and the decoded configuration are parameters.
- Chess rules (legality, move decoding, FEN, outcomes other than resignation) belong to the chess library and are oracles.
- cmd/uchess/main.go, cmd/uciproxy/proxy.go and cmd/dbg/dbg.go (UI, goroutine proxy, debug dump) are not part of this model.
