/**
  pkg/util.go: board geometry, player-type predicates and the material
  advantage calculator.

  The calculator counts, per side, the pieces missing from the starting
  complement (8 pawns, 2 bishops, 2 knights, 2 rooks, 1 queen, 1 king),
  cancels captured pieces piece for piece against the other side's, renders
  the surviving advantage as white piece glyphs and scores it
  (p=1, n=3, b=3, r=5, q=9, k=0) into a "+N" string for the leading side.
  A board with more of a piece than the starting complement (after a
  promotion) makes strings.Repeat panic; every function that reaches that
  point returns None.
 */
module Util {
  import opened Wrappers
  import opened Text
  import opened Records
  import opened Chess

  // ---------------------------------------------------------------------------
  // Board geometry

  /** chess.File, chess.Rank and chess.Square are 8-bit signed integers. */
  type Int8 = x: int | -128 <= x < 128

  /** Go's conversion of an int to int8 (two's complement wrap-around). */
  function ToInt8(x: int): (r: Int8)
    ensures -128 <= x < 128 ==> r == x
    ensures (r - x) % 256 == 0
  {
    (x + 128) % 256 - 128
  }

  /** Go's integer division, which truncates toward zero, by a positive divisor. */
  function Quot(a: int, b: int): (q: int)
    requires b > 0
    ensures a >= 0 ==> q == a / b
  {
    if a >= 0 then a / b else -((-a) / b)
  }

  /** Go's remainder, which takes the sign of the dividend. */
  function Rem(a: int, b: int): (r: int)
    requires b > 0
    ensures a >= 0 ==> r == a % b
    ensures a < 0 ==> -b < r <= 0
  {
    a - b * Quot(a, b)
  }

  /** getSquare: the square at file f and rank r, numbered a1 = 0, b1 = 1, ..., h8 = 63. */
  function GetSquare(f: Int8, r: Int8): (sq: Int8)
    ensures 0 <= f < 8 && 0 <= r < 8 ==> 0 <= sq < 64 && sq / 8 == r && sq % 8 == f
  {
    ToInt8(r * 8 + f)
  }

  /** squareColor: Black when the rank and the square number have the same parity. */
  function SquareColor(sq: Int8): Color
  {
    if Rem(Quot(sq, 8), 2) == Rem(sq, 2) then Black else White
  }

  /** On the board, a square is dark exactly when its file and rank have the same parity. */
  lemma SquareColorParity(f: Int8, r: Int8)
    requires 0 <= f < 8 && 0 <= r < 8
    ensures SquareColor(GetSquare(f, r)) == Black <==> r % 2 == f % 2
  {
    var sq := GetSquare(f, r);
    assert sq == r * 8 + f;
    assert Quot(sq, 8) == r && Rem(sq, 2) == f % 2;
  }

  /** a1 is dark and h1 is light. */
  lemma CornerColors()
    ensures SquareColor(GetSquare(0, 0)) == Black && SquareColor(GetSquare(7, 0)) == White
  {
    SquareColorParity(0, 0);
    SquareColorParity(7, 0);
  }

  /** Neighbouring squares on a rank differ in colour. */
  lemma FileNeighbourColors(f: Int8, r: Int8)
    requires 0 <= f < 7 && 0 <= r < 8
    ensures SquareColor(GetSquare(f, r)) != SquareColor(GetSquare(f + 1, r))
  {
    SquareColorParity(f, r);
    SquareColorParity(f + 1, r);
    OppositeParity(r, f);
  }

  /** Neighbouring squares on a file differ in colour. */
  lemma RankNeighbourColors(f: Int8, r: Int8)
    requires 0 <= f < 8 && 0 <= r < 7
    ensures SquareColor(GetSquare(f, r)) != SquareColor(GetSquare(f, r + 1))
  {
    SquareColorParity(f, r);
    SquareColorParity(f, r + 1);
    OppositeParity(f, r);
  }

  /** Moving one step changes whether two coordinates have the same parity. */
  lemma OppositeParity(a: int, b: int)
    requires 0 <= a && 0 <= b
    ensures (a % 2 == b % 2) != (a % 2 == (b + 1) % 2)
  {
    if b % 2 == 0 {
      assert (b + 1) % 2 == 1;
    } else {
      assert (b + 1) % 2 == 0;
    }
  }

  // ---------------------------------------------------------------------------
  // Player types

  /** IsCPU: the given side is played by the engine. */
  function IsCPU(player: Color, config: Config): (cpu: bool)
    ensures cpu <==> (if player == White then config.whitePiece else config.blackPiece) == "cpu"
  {
    (player == Black && config.blackPiece == "cpu") || (player == White && config.whitePiece == "cpu")
  }

  /** IsInteractive: a human plays at least one side, i.e. not both sides are the CPU. */
  function IsInteractive(config: Config): (interactive: bool)
    ensures !interactive <==> IsCPU(White, config) && IsCPU(Black, config)
  {
    !(config.whitePiece == "cpu" && config.blackPiece == "cpu")
  }

  // ---------------------------------------------------------------------------
  // Captured pieces

  /** strings.Count(s, string(c)): occurrences of one character. */
  function Count(s: string, c: char): nat
  {
    multiset(s)[c]
  }

  /** The starting number of each piece kind, in the order p, b, n, r, q, k. */
  const StartCounts: seq<nat> := [8, 2, 2, 2, 1, 1]

  /**
    getCapturedPieces: for the six letters of one side, the letters missing
    from the starting complement, pawns first, then bishops, knights, rooks,
    queens, king. None when a letter occurs more often than at the start
    (strings.Repeat with a negative count panics).
   */
  function GetCapturedPieces(pieces: string, p: char, b: char, n: char, r: char, q: char, k: char): (res: Option<string>)
    ensures res.Some? <==>
      Count(pieces, p) <= 8 && Count(pieces, b) <= 2 && Count(pieces, n) <= 2
      && Count(pieces, r) <= 2 && Count(pieces, q) <= 1 && Count(pieces, k) <= 1
    ensures res.Some? ==> forall i :: 0 <= i < |res.value| ==> res.value[i] in [p, b, n, r, q, k]
  {
    var pawns := 8 - Count(pieces, p);
    var bishops := 2 - Count(pieces, b);
    var knights := 2 - Count(pieces, n);
    var rooks := 2 - Count(pieces, r);
    var queens := 1 - Count(pieces, q);
    var kings := 1 - Count(pieces, k);
    if pawns < 0 || bishops < 0 || knights < 0 || rooks < 0 || queens < 0 || kings < 0 then None
    else Some(Repeat(p, pawns) + Repeat(b, bishops) + Repeat(n, knights)
              + Repeat(r, rooks) + Repeat(q, queens) + Repeat(k, kings))
  }

  predicate Distinct(letters: seq<char>)
  {
    forall i, j :: 0 <= i < j < |letters| ==> letters[i] != letters[j]
  }

  /** How many of letter x one side has lost, given the six letters of that side. */
  function Missing(pieces: string, letters: seq<char>, x: char): int
    requires |letters| == 6
  {
    if x == letters[0] then 8 - Count(pieces, x)
    else if x == letters[1] then 2 - Count(pieces, x)
    else if x == letters[2] then 2 - Count(pieces, x)
    else if x == letters[3] then 2 - Count(pieces, x)
    else if x == letters[4] then 1 - Count(pieces, x)
    else if x == letters[5] then 1 - Count(pieces, x)
    else 0
  }

  /**
    For six distinct letters, each letter occurs in the captured string as
    often as it is missing from the board, and no other character occurs.
   */
  lemma CapturedCounts(pieces: string, p: char, b: char, n: char, r: char, q: char, k: char, x: char)
    requires Distinct([p, b, n, r, q, k])
    requires GetCapturedPieces(pieces, p, b, n, r, q, k).Some?
    ensures Count(GetCapturedPieces(pieces, p, b, n, r, q, k).value, x) == Missing(pieces, [p, b, n, r, q, k], x)
  {
    var letters := [p, b, n, r, q, k];
    var lengths: seq<nat> := [8 - Count(pieces, p), 2 - Count(pieces, b), 2 - Count(pieces, n),
                              2 - Count(pieces, r), 1 - Count(pieces, q), 1 - Count(pieces, k)];
    assert GetCapturedPieces(pieces, p, b, n, r, q, k).value
        == Repeat(letters[0], lengths[0]) + Repeat(letters[1], lengths[1]) + Repeat(letters[2], lengths[2])
           + Repeat(letters[3], lengths[3]) + Repeat(letters[4], lengths[4]) + Repeat(letters[5], lengths[5]);
    RunsCount(letters, lengths, x);
    MissingHits(pieces, letters, lengths, x);
  }

  /** With distinct letters, the runs of the starting counts minus the board's counts contribute exactly what is missing. */
  lemma MissingHits(pieces: string, letters: seq<char>, lengths: seq<nat>, x: char)
    requires |letters| == 6 && |lengths| == 6 && Distinct(letters)
    requires lengths[0] == 8 - Count(pieces, letters[0]) && lengths[1] == 2 - Count(pieces, letters[1])
      && lengths[2] == 2 - Count(pieces, letters[2]) && lengths[3] == 2 - Count(pieces, letters[3])
      && lengths[4] == 1 - Count(pieces, letters[4]) && lengths[5] == 1 - Count(pieces, letters[5])
    ensures Missing(pieces, letters, x) == RunHits(letters, lengths, x)
  {
    DistinctHits(letters, lengths, x);
    if x !in letters {
      assert forall i :: 0 <= i < 6 ==> x != letters[i];
    }
  }

  /** The occurrences of x contributed by six runs of single letters. */
  function RunHits(letters: seq<char>, lengths: seq<nat>, x: char): nat
    requires |letters| == 6 && |lengths| == 6
  {
    (if x == letters[0] then lengths[0] else 0) + (if x == letters[1] then lengths[1] else 0)
    + (if x == letters[2] then lengths[2] else 0) + (if x == letters[3] then lengths[3] else 0)
    + (if x == letters[4] then lengths[4] else 0) + (if x == letters[5] then lengths[5] else 0)
  }

  /** Six runs, concatenated: each letter counts with its run's length. */
  lemma RunsCount(letters: seq<char>, lengths: seq<nat>, x: char)
    requires |letters| == 6 && |lengths| == 6
    ensures Count(Repeat(letters[0], lengths[0]) + Repeat(letters[1], lengths[1]) + Repeat(letters[2], lengths[2])
                  + Repeat(letters[3], lengths[3]) + Repeat(letters[4], lengths[4]) + Repeat(letters[5], lengths[5]), x)
            == RunHits(letters, lengths, x)
  {
    var r0, r1, r2 := Repeat(letters[0], lengths[0]), Repeat(letters[1], lengths[1]), Repeat(letters[2], lengths[2]);
    var r3, r4, r5 := Repeat(letters[3], lengths[3]), Repeat(letters[4], lengths[4]), Repeat(letters[5], lengths[5]);
    RepeatCount(letters[0], lengths[0], x);
    RepeatCount(letters[1], lengths[1], x);
    RepeatCount(letters[2], lengths[2], x);
    RepeatCount(letters[3], lengths[3], x);
    RepeatCount(letters[4], lengths[4], x);
    RepeatCount(letters[5], lengths[5], x);
    CountAppend(r0, r1, x);
    CountAppend(r0 + r1, r2, x);
    CountAppend(r0 + r1 + r2, r3, x);
    CountAppend(r0 + r1 + r2 + r3, r4, x);
    CountAppend(r0 + r1 + r2 + r3 + r4, r5, x);
  }

  lemma CountAppend(a: string, b: string, x: char)
    ensures Count(a + b, x) == Count(a, x) + Count(b, x)
  {
  }

  /** With distinct letters at most one run contributes, the one of x's own letter. */
  lemma DistinctHits(letters: seq<char>, lengths: seq<nat>, x: char)
    requires |letters| == 6 && |lengths| == 6 && Distinct(letters)
    ensures forall i :: 0 <= i < 6 && x == letters[i] ==> RunHits(letters, lengths, x) == lengths[i]
    ensures x !in letters ==> RunHits(letters, lengths, x) == 0
  {
    forall i | 0 <= i < 6 && x == letters[i] ensures RunHits(letters, lengths, x) == lengths[i] {
      forall j | 0 <= j < 6 && j != i ensures x != letters[j] {
        if j < i {
          assert letters[j] != letters[i];
        } else {
          assert letters[i] != letters[j];
        }
      }
    }
  }

  /** Position of a letter in the listing order of the captured string. */
  function Rank6(letters: seq<char>, c: char): nat
    requires |letters| == 6
  {
    if c == letters[0] then 0 else if c == letters[1] then 1 else if c == letters[2] then 2
    else if c == letters[3] then 3 else if c == letters[4] then 4 else 5
  }

  /** The captured string lists pawns, then bishops, knights, rooks, queens, kings. */
  lemma CapturedOrdered(pieces: string, p: char, b: char, n: char, r: char, q: char, k: char, i: int, j: int)
    requires Distinct([p, b, n, r, q, k])
    requires GetCapturedPieces(pieces, p, b, n, r, q, k).Some?
    requires 0 <= i <= j < |GetCapturedPieces(pieces, p, b, n, r, q, k).value|
    ensures var captured := GetCapturedPieces(pieces, p, b, n, r, q, k).value;
      Rank6([p, b, n, r, q, k], captured[i]) <= Rank6([p, b, n, r, q, k], captured[j])
  {
    var letters := [p, b, n, r, q, k];
    var s0 := Repeat(p, 8 - Count(pieces, p));
    var s1 := s0 + Repeat(b, 2 - Count(pieces, b));
    var s2 := s1 + Repeat(n, 2 - Count(pieces, n));
    var s3 := s2 + Repeat(r, 2 - Count(pieces, r));
    var s4 := s3 + Repeat(q, 1 - Count(pieces, q));
    var s5 := s4 + Repeat(k, 1 - Count(pieces, k));
    assert s5 == GetCapturedPieces(pieces, p, b, n, r, q, k).value;
    BlockLetter(s0, s1, s2, s3, s4, s5, letters, i);
    BlockLetter(s0, s1, s2, s3, s4, s5, letters, j);
  }

  /** Which of the six blocks of the captured string index t falls in. */
  function Block(s0: string, s1: string, s2: string, s3: string, s4: string, t: int): nat
  {
    if t < |s0| then 0 else if t < |s1| then 1 else if t < |s2| then 2
    else if t < |s3| then 3 else if t < |s4| then 4 else 5
  }

  lemma BlockLetter(s0: string, s1: string, s2: string, s3: string, s4: string, s5: string, letters: seq<char>, t: int)
    requires |letters| == 6 && Distinct(letters)
    requires |s0| <= |s1| <= |s2| <= |s3| <= |s4| <= |s5|
    requires s0 == Repeat(letters[0], |s0|)
    requires s1 == s0 + Repeat(letters[1], |s1| - |s0|)
    requires s2 == s1 + Repeat(letters[2], |s2| - |s1|)
    requires s3 == s2 + Repeat(letters[3], |s3| - |s2|)
    requires s4 == s3 + Repeat(letters[4], |s4| - |s3|)
    requires s5 == s4 + Repeat(letters[5], |s5| - |s4|)
    requires 0 <= t < |s5|
    ensures Rank6(letters, s5[t]) == Block(s0, s1, s2, s3, s4, t)
    ensures forall u :: t <= u < |s5| ==> Block(s0, s1, s2, s3, s4, t) <= Block(s0, s1, s2, s3, s4, u)
  {
    var m := Block(s0, s1, s2, s3, s4, t);
    if t < |s4| {
      if t < |s3| {
        if t < |s2| {
          if t < |s1| {
            if t < |s0| {
              assert s5[t] == s0[t];
            } else {
              assert s5[t] == s1[t];
            }
          } else {
            assert s5[t] == s2[t];
          }
        } else {
          assert s5[t] == s3[t];
        }
      } else {
        assert s5[t] == s4[t];
      }
    }
    assert s5[t] == letters[m];
  }

  /** getCaptured: the white and the black letters missing from the board, or None on a panic. */
  function GetCaptured(pieces: string): (res: Option<(string, string)>)
    ensures res.Some? <==>
      GetCapturedPieces(pieces, 'P', 'B', 'N', 'R', 'Q', 'K').Some?
      && GetCapturedPieces(pieces, 'p', 'b', 'n', 'r', 'q', 'k').Some?
    ensures res.Some? ==>
      res.value == (GetCapturedPieces(pieces, 'P', 'B', 'N', 'R', 'Q', 'K').value,
                    GetCapturedPieces(pieces, 'p', 'b', 'n', 'r', 'q', 'k').value)
  {
    var cWhite := GetCapturedPieces(pieces, 'P', 'B', 'N', 'R', 'Q', 'K');
    var cBlack := GetCapturedPieces(pieces, 'p', 'b', 'n', 'r', 'q', 'k');
    if cWhite.Some? && cBlack.Some? then Some((cWhite.value, cBlack.value)) else None
  }

  // ---------------------------------------------------------------------------
  // Glyphs

  /** getPiece: the white glyph of a piece letter of either case, "" for anything else. */
  function GetPiece(letter: char): (glyph: string)
    ensures glyph != "" <==> letter in "PBNRQKpbnrqk"
  {
    if letter == 'P' || letter == 'p' then "\U{2659}"
    else if letter == 'B' || letter == 'b' then "\U{2657}"
    else if letter == 'N' || letter == 'n' then "\U{2658}"
    else if letter == 'R' || letter == 'r' then "\U{2656}"
    else if letter == 'Q' || letter == 'q' then "\U{2655}"
    else if letter == 'K' || letter == 'k' then "\U{2654}"
    else ""
  }

  /** Both cases of a letter give the same (white) glyph. */
  lemma GetPieceCaseBlind(letter: char)
    ensures GetPiece(letter) == GetPiece(LowerChar(letter))
  {
  }

  /** The glyphs of a letter string, concatenated in order. */
  function Glyphs(s: string): string
  {
    if s == [] then "" else Glyphs(s[..|s| - 1]) + GetPiece(s[|s| - 1])
  }

  /** The lower-case letter a white piece glyph stands for ('?' for anything else). */
  function GlyphLetter(g: char): char
  {
    if g == '\U{2659}' then 'p' else if g == '\U{2657}' then 'b' else if g == '\U{2658}' then 'n'
    else if g == '\U{2656}' then 'r' else if g == '\U{2655}' then 'q' else if g == '\U{2654}' then 'k'
    else '?'
  }

  predicate PieceLetters(s: string)
  {
    forall i :: 0 <= i < |s| ==> s[i] in "PBNRQKpbnrqk"
  }

  /** A piece letter of either case becomes one glyph that reads back as the lower-case letter. */
  lemma LetterGlyph(c: char)
    requires c in "PBNRQKpbnrqk"
    ensures |GetPiece(c)| == 1 && GlyphLetter(GetPiece(c)[0]) == LowerChar(c)
  {
  }

  /**
    Every piece letter becomes exactly one glyph, and the glyph string can be
    read back as the lower-cased letters: rendering loses only the case.
   */
  lemma {:induction false} GlyphsReadBack(s: string)
    requires PieceLetters(s)
    ensures |Glyphs(s)| == |s|
    ensures forall i :: 0 <= i < |s| ==> GlyphLetter(Glyphs(s)[i]) == LowerChar(s[i])
  {
    if s != [] {
      var init := s[..|s| - 1];
      assert PieceLetters(init) by {
        forall i | 0 <= i < |init| ensures init[i] in "PBNRQKpbnrqk" {
          assert init[i] == s[i];
        }
      }
      GlyphsReadBack(init);
      var last := s[|s| - 1];
      var g := GetPiece(last);
      LetterGlyph(last);
      var all := Glyphs(s);
      assert all == Glyphs(init) + g;
      forall i | 0 <= i < |s| ensures GlyphLetter(all[i]) == LowerChar(s[i]) {
        if i < |s| - 1 {
          assert all[i] == Glyphs(init)[i] && s[i] == init[i];
        }
      }
    }
  }

  /** The loop of Advantages that concatenates the glyphs of one side's letters. */
  method RenderGlyphs(adv: string) returns (res: string)
    ensures res == Glyphs(adv)
  {
    res := "";
    var i := 0;
    while i < |adv|
      invariant 0 <= i <= |adv|
      invariant res == Glyphs(adv[..i])
    {
      assert adv[..i + 1][..i] == adv[..i];
      res := res + GetPiece(adv[i]);
      i := i + 1;
    }
    assert adv[..i] == adv;
  }

  // ---------------------------------------------------------------------------
  // Piece-for-piece cancellation

  /** removeIndex: the slice without its element at index. */
  function RemoveIndex(s: seq<char>, index: nat): (r: seq<char>)
    requires index < |s|
    ensures |r| == |s| - 1
    ensures forall i :: 0 <= i < |r| ==> r[i] == (if i < index then s[i] else s[i + 1])
  {
    s[..index] + s[index + 1..]
  }

  /** findStr: the first index holding want, or -1. */
  method FindStr(s: seq<char>, want: char) returns (idx: int)
    ensures -1 <= idx < |s|
    ensures idx == -1 <==> want !in s
    ensures idx >= 0 ==> s[idx] == want && want !in s[..idx]
  {
    var i := 0;
    while i < |s|
      invariant 0 <= i <= |s|
      invariant want !in s[..i]
    {
      if s[i] == want {
        return i;
      }
      i := i + 1;
    }
    assert s[..i] == s;
    return -1;
  }

  /** s with its first occurrence of c removed; s itself when c does not occur. */
  function RemoveFirst(s: seq<char>, c: char): (r: seq<char>)
    ensures multiset(r) == multiset(s) - multiset{c}
    ensures c !in s ==> r == s
  {
    if s == [] then []
    else if s[0] == c then (assert s == [s[0]] + s[1..]; s[1..])
    else (assert s == [s[0]] + s[1..]; [s[0]] + RemoveFirst(s[1..], c))
  }

  /** Removing at the first index of c is removing the first occurrence of c. */
  lemma {:induction false} RemoveAtFirst(s: seq<char>, c: char, idx: nat)
    requires idx < |s| && s[idx] == c && c !in s[..idx]
    ensures RemoveIndex(s, idx) == RemoveFirst(s, c)
  {
    if idx > 0 {
      assert s[0] in s[..idx];
      var tail := s[1..];
      assert tail[..idx - 1] == s[..idx][1..];
      RemoveAtFirst(tail, c, idx - 1);
      var lhs := RemoveIndex(s, idx);
      var rhs := [s[0]] + RemoveIndex(tail, idx - 1);
      assert |lhs| == |rhs|;
      forall i | 0 <= i < |lhs| ensures lhs[i] == rhs[i] {
        if i > 0 {
          assert rhs[i] == RemoveIndex(tail, idx - 1)[i - 1];
        }
      }
      assert lhs == rhs;
    } else {
      assert RemoveIndex(s, 0) == s[1..];
    }
  }

  /** s, with one occurrence struck out, front first, for each letter of b in turn (lower-cased). */
  function Struck(s: seq<char>, b: string): seq<char>
    decreases |b|
  {
    if b == [] then s else Struck(RemoveFirst(s, LowerChar(b[0])), b[1..])
  }

  /** disjoin: lower(a) with, for each letter of b, its first remaining occurrence removed. */
  method Disjoin(a: string, b: string) returns (res: string)
    ensures res == Struck(Lower(a), b)
  {
    var result := Lower(a);
    var i := 0;
    while i < |b|
      invariant 0 <= i <= |b|
      invariant Struck(result, b[i..]) == Struck(Lower(a), b)
    {
      var c := LowerChar(b[i]);
      assert Struck(result, b[i..]) == Struck(RemoveFirst(result, c), b[i + 1..]) by {
        assert b[i..][0] == b[i] && b[i..][1..] == b[i + 1..];
      }
      var idx := FindStr(result, c);
      if idx >= 0 {
        RemoveAtFirst(result, c, idx);
        result := RemoveIndex(result, idx);
      }
      i := i + 1;
    }
    res := result;
  }

  /** What survives the cancellation is the multiset difference, letter by letter. */
  lemma {:induction false} StruckMultiset(s: seq<char>, b: string)
    ensures multiset(Struck(s, b)) == multiset(s) - multiset(Lower(b))
    decreases |b|
  {
    if b != [] {
      var c := LowerChar(b[0]);
      var s' := RemoveFirst(s, c);
      StruckMultiset(s', b[1..]);
      assert Struck(s, b) == Struck(s', b[1..]);
      LowerCons(b);
      assert multiset(Lower(b)) == multiset{c} + multiset(Lower(b[1..]));
      MinusUnion(multiset(s), multiset{c}, multiset(Lower(b[1..])));
    }
  }

  /** Taking away a union is taking away its parts one after the other. */
  lemma MinusUnion(m: multiset<char>, a: multiset<char>, b: multiset<char>)
    ensures m - (a + b) == (m - a) - b
  {
    assert forall x :: (m - (a + b))[x] == ((m - a) - b)[x];
  }

  lemma LowerCons(b: string)
    requires b != []
    ensures Lower(b) == [LowerChar(b[0])] + Lower(b[1..])
  {
    var l := Lower(b);
    var r := [LowerChar(b[0])] + Lower(b[1..]);
    forall i | 0 <= i < |l| ensures l[i] == r[i] {
      if i > 0 {
        assert r[i] == Lower(b[1..])[i - 1];
      }
    }
  }

  /** t can be obtained from s by deleting elements: the survivors keep their order. */
  predicate Subsequence(t: seq<char>, s: seq<char>)
    decreases |s|
  {
    t == [] || (s != [] && ((t[0] == s[0] && Subsequence(t[1..], s[1..])) || Subsequence(t, s[1..])))
  }

  lemma {:induction false} SubsequenceRefl(s: seq<char>)
    ensures Subsequence(s, s)
    decreases |s|
  {
    if s != [] { SubsequenceRefl(s[1..]); }
  }

  lemma {:induction false} SubsequenceTrans(a: seq<char>, b: seq<char>, c: seq<char>)
    requires Subsequence(a, b) && Subsequence(b, c)
    ensures Subsequence(a, c)
    decreases |c|
  {
    if a != [] {
      if b[0] == c[0] && Subsequence(b[1..], c[1..]) {
        if a[0] == b[0] && Subsequence(a[1..], b[1..]) {
          SubsequenceTrans(a[1..], b[1..], c[1..]);
        } else {
          SubsequenceTrans(a, b[1..], c[1..]);
        }
      } else {
        SubsequenceTrans(a, b, c[1..]);
      }
    }
  }

  lemma {:induction false} RemoveFirstSubsequence(s: seq<char>, c: char)
    ensures Subsequence(RemoveFirst(s, c), s)
    decreases |s|
  {
    if s != [] {
      if s[0] == c {
        DropFirstSubsequence(s);
      } else {
        RemoveFirstSubsequence(s[1..], c);
        var r := RemoveFirst(s, c);
        assert r[0] == s[0] && r[1..] == RemoveFirst(s[1..], c);
      }
    }
  }

  lemma DropFirstSubsequence(s: seq<char>)
    requires s != []
    ensures Subsequence(s[1..], s)
  {
    SubsequenceRefl(s[1..]);
  }

  /** The cancellation keeps the surviving letters in their original order. */
  lemma {:induction false} StruckSubsequence(s: seq<char>, b: string)
    ensures Subsequence(Struck(s, b), s)
    decreases |b|
  {
    if b == [] {
      SubsequenceRefl(s);
    } else {
      var s' := RemoveFirst(s, LowerChar(b[0]));
      StruckSubsequence(s', b[1..]);
      RemoveFirstSubsequence(s, LowerChar(b[0]));
      SubsequenceTrans(Struck(s', b[1..]), s', s);
    }
  }

  /**
    diffPieces: each side's surplus over the other, letter by letter
    (lower-cased); no letter is left on both sides.
   */
  method DiffPieces(a: string, b: string) returns (aAdv: string, bAdv: string)
    ensures aAdv == Struck(Lower(b), a) && bAdv == Struck(Lower(a), b)
    ensures multiset(aAdv) == multiset(Lower(b)) - multiset(Lower(a))
    ensures multiset(bAdv) == multiset(Lower(a)) - multiset(Lower(b))
    ensures forall x :: multiset(aAdv)[x] == 0 || multiset(bAdv)[x] == 0
  {
    aAdv := Disjoin(b, a);
    bAdv := Disjoin(a, b);
    StruckMultiset(Lower(b), a);
    StruckMultiset(Lower(a), b);
  }

  // ---------------------------------------------------------------------------
  // Advantages and scores

  /**
    The advantage letters of each side for a board: the pieces captured from
    the opponent that are not cancelled by own losses, lower-cased. White's
    advantage comes from Black's losses. None when getCaptured panics.
   */
  function AdvantageLetters(positions: string): Option<(string, string)>
  {
    var captured := GetCaptured(positions);
    if captured.None? then None
    else
      var whiteCap := captured.value.0;
      var blackCap := captured.value.1;
      Some((Struck(Lower(blackCap), whiteCap), Struck(Lower(whiteCap), blackCap)))
  }

  /** Advantages: both sides' surviving advantage rendered as white piece glyphs. */
  method Advantages(positions: string) returns (res: Option<(string, string)>)
    ensures res.Some? <==> AdvantageLetters(positions).Some?
    ensures res.Some? ==> (res.value.0 == Glyphs(AdvantageLetters(positions).value.0)
                           && res.value.1 == Glyphs(AdvantageLetters(positions).value.1))
  {
    var captured := GetCaptured(positions);
    if captured.None? {
      return None;
    }
    var (whiteCap, blackCap) := captured.value;
    var whiteAdv, blackAdv := DiffPieces(whiteCap, blackCap);
    var whiteRes := RenderGlyphs(whiteAdv);
    var blackRes := RenderGlyphs(blackAdv);
    return Some((whiteRes, blackRes));
  }

  /** The points of one piece letter; upper-case and other characters score 0. */
  function PieceValue(c: char): int
  {
    if c == 'r' then 5 else if c == 'n' || c == 'b' then 3 else if c == 'q' then 9
    else if c == 'p' then 1 else 0
  }

  /** The sum of the piece values of a string, the specification of scorePieces. */
  function Score(s: string): int
  {
    if s == [] then 0 else Score(s[..|s| - 1]) + PieceValue(s[|s| - 1])
  }

  /** The score depends only on how many lower-case p, n, b, r and q the string holds. */
  lemma {:induction false} ScoreByCounts(s: string)
    ensures Score(s) == Count(s, 'p') + 3 * Count(s, 'n') + 3 * Count(s, 'b') + 5 * Count(s, 'r') + 9 * Count(s, 'q')
  {
    if s != [] {
      var init := s[..|s| - 1];
      ScoreByCounts(init);
      assert s == init + [s[|s| - 1]];
      assert multiset(s) == multiset(init) + multiset{s[|s| - 1]};
    }
  }

  /** scorePieces: the running total of the piece values. */
  method ScorePieces(pieces: string) returns (score: int)
    ensures score == Score(pieces)
  {
    score := 0;
    var i := 0;
    while i < |pieces|
      invariant 0 <= i <= |pieces|
      invariant score == Score(pieces[..i])
    {
      assert pieces[..i + 1][..i] == pieces[..i];
      score := score + PieceValue(pieces[i]);
      i := i + 1;
    }
    assert pieces[..i] == pieces;
  }

  /** The text of one side's differential: "+N" for a lead of N points, "" otherwise. */
  function ScoreText(diff: int): string
  {
    if diff > 0 then "+" + NatToDecimal(diff) else ""
  }

  /** text is "+" followed by the decimal digits of a positive lead. */
  predicate LeadText(text: string, lead: int)
  {
    |text| >= 2 && text[0] == '+' && (forall i :: 1 <= i < |text| ==> IsDigit(text[i]))
    && DecimalValue(text[1..]) == lead > 0
  }

  /** A differential text is empty exactly for no lead, and otherwise reads back as the lead. */
  lemma ScoreTextReadsBack(diff: int)
    ensures ScoreText(diff) == "" <==> diff <= 0
    ensures diff > 0 ==> LeadText(ScoreText(diff), diff)
  {
    if diff > 0 {
      var digits := NatToDecimal(diff);
      DecimalRoundTrip(diff);
      assert ScoreText(diff)[1..] == digits;
    }
  }

  /** White's and Black's differential texts for the two advantage scores. */
  function Differentials(whiteScore: int, blackScore: int): (string, string)
  {
    (ScoreText(whiteScore - blackScore), ScoreText(blackScore - whiteScore))
  }

  /** Only the leading side gets a differential, and it reads back as the lead. */
  lemma DifferentialsExclusive(whiteScore: int, blackScore: int)
    ensures var (w, b) := Differentials(whiteScore, blackScore);
      (w == "" || b == "")
      && (w != "" <==> whiteScore > blackScore) && (b != "" <==> blackScore > whiteScore)
      && (w != "" ==> LeadText(w, whiteScore - blackScore))
      && (b != "" ==> LeadText(b, blackScore - whiteScore))
  {
    ScoreTextReadsBack(whiteScore - blackScore);
    ScoreTextReadsBack(blackScore - whiteScore);
  }

  /** The specification of ScoreStr: the two differential strings of a board, None on a panic. */
  function ScoreLines(positions: string): Option<(string, string)>
  {
    var adv := AdvantageLetters(positions);
    if adv.None? then None
    else
      Some(Differentials(Score(adv.value.0), Score(adv.value.1)))
  }

  /** Once the captured pieces are known, the score lines are the differentials of their advantages. */
  lemma ScoreLinesOf(positions: string, whiteCap: string, blackCap: string)
    requires GetCaptured(positions) == Some((whiteCap, blackCap))
    ensures ScoreLines(positions) == Some(Differentials(Score(Struck(Lower(blackCap), whiteCap)),
                                                        Score(Struck(Lower(whiteCap), blackCap))))
  {
  }

  /** ScoreStr: scores both advantages and formats the difference for the leading side. */
  method ScoreStr(positions: string) returns (res: Option<(string, string)>)
    ensures res == ScoreLines(positions)
  {
    var captured := GetCaptured(positions);
    if captured.None? {
      return None;
    }
    var (whiteCap, blackCap) := captured.value;
    var whiteAdv, blackAdv := DiffPieces(whiteCap, blackCap);
    ScoreLinesOf(positions, whiteCap, blackCap);
    var whiteScore := ScorePieces(whiteAdv);
    var blackScore := ScorePieces(blackAdv);
    var whiteDiff := whiteScore - blackScore;
    var blackDiff := blackScore - whiteScore;
    var whiteStr := "";
    var blackStr := "";
    if whiteDiff > 0 {
      whiteStr := "+" + NatToDecimal(whiteDiff);
    }
    assert whiteStr == ScoreText(whiteDiff);
    if blackDiff > 0 {
      blackStr := "+" + NatToDecimal(blackDiff);
    }
    assert blackStr == ScoreText(blackDiff);
    return Some((whiteStr, blackStr));
  }

  /**
    At most one side has a non-empty differential, and it reads back as the
    positive difference of the two advantage scores.
   */
  lemma ScoreLinesExclusive(positions: string)
    requires ScoreLines(positions).Some?
    ensures var lines := ScoreLines(positions).value;
      var adv := AdvantageLetters(positions).value;
      (lines.0 == "" || lines.1 == "")
      && (lines.0 != "" ==> LeadText(lines.0, Score(adv.0) - Score(adv.1)))
      && (lines.1 != "" ==> LeadText(lines.1, Score(adv.1) - Score(adv.0)))
  {
    var adv := AdvantageLetters(positions).value;
    assert ScoreLines(positions).value == Differentials(Score(adv.0), Score(adv.1));
    DifferentialsExclusive(Score(adv.0), Score(adv.1));
  }

  /** The two advantages never share a letter: per letter, cancellation leaves one side at zero. */
  lemma AdvantagesDisjoint(positions: string, x: char)
    requires AdvantageLetters(positions).Some?
    ensures var (whiteAdv, blackAdv) := AdvantageLetters(positions).value;
      Count(whiteAdv, x) == 0 || Count(blackAdv, x) == 0
  {
    var (whiteCap, blackCap) := GetCaptured(positions).value;
    StruckMultiset(Lower(blackCap), whiteCap);
    StruckMultiset(Lower(whiteCap), blackCap);
  }

  /** A board with exactly the starting number of every piece letter. */
  predicate FullComplement(pieces: string)
  {
    Count(pieces, 'P') == 8 && Count(pieces, 'B') == 2 && Count(pieces, 'N') == 2
    && Count(pieces, 'R') == 2 && Count(pieces, 'Q') == 1 && Count(pieces, 'K') == 1
    && Count(pieces, 'p') == 8 && Count(pieces, 'b') == 2 && Count(pieces, 'n') == 2
    && Count(pieces, 'r') == 2 && Count(pieces, 'q') == 1 && Count(pieces, 'k') == 1
  }

  /** The starting position: nothing captured, no advantage, no differential. */
  lemma StartingPositionEven(positions: string)
    requires FullComplement(positions)
    ensures AdvantageLetters(positions) == Some(("", ""))
    ensures ScoreLines(positions) == Some(("", ""))
  {
    assert GetCaptured(positions) == Some(("", ""));
  }

  /** A full board except for the black queen: White leads by a queen, "+9". */
  lemma BlackQueenMissing(positions: string)
    requires Count(positions, 'q') == 0
    requires Count(positions, 'P') == 8 && Count(positions, 'B') == 2 && Count(positions, 'N') == 2
      && Count(positions, 'R') == 2 && Count(positions, 'Q') == 1 && Count(positions, 'K') == 1
      && Count(positions, 'p') == 8 && Count(positions, 'b') == 2 && Count(positions, 'n') == 2
      && Count(positions, 'r') == 2 && Count(positions, 'k') == 1
    ensures AdvantageLetters(positions) == Some(("q", ""))
    ensures Glyphs("q") == "\U{2655}"
    ensures ScoreLines(positions) == Some(("+9", ""))
  {
    BlackQueenCaptured(positions);
    QueenDownLines(positions);
  }

  /** With only the black queen captured, White is a queen, nine points, up. */
  lemma QueenDownLines(positions: string)
    requires GetCaptured(positions) == Some(("", "q"))
    ensures AdvantageLetters(positions) == Some(("q", ""))
    ensures Glyphs("q") == "\U{2655}"
    ensures ScoreLines(positions) == Some(("+9", ""))
  {
    QueenLetters();
    QueenScores();
    ScoreLinesOf(positions, "", "q");
  }

  /** The lone captured black queen survives the cancellation on White's side. */
  lemma QueenLetters()
    ensures Struck(Lower("q"), "") == "q" && Struck(Lower(""), "q") == ""
  {
    var q := Lower("q");
    assert |q| == 1 && q[0] == 'q';
    assert q == "q";
    assert |Lower("")| == 0;
    var b := "q";
    assert b[1..] == "" && LowerChar(b[0]) == 'q';
    assert RemoveFirst("", 'q') == "";
    assert Struck("", b) == Struck("", b[1..]);
  }

  /** A queen is nine points, shown as "+9" on the leading side, and drawn as the white queen. */
  lemma QueenScores()
    ensures Differentials(Score("q"), Score("")) == ("+9", "")
    ensures Glyphs("q") == "\U{2655}"
  {
    assert Score("q") == 9 && Score("") == 0 by {
      assert "q"[..0] == "";
    }
    assert NatToDecimal(9) == "9";
    assert ScoreText(9) == "+" + NatToDecimal(9) == "+9";
    assert ScoreText(-9) == "";
    assert Glyphs("q") == "\U{2655}" by {
      assert "q"[..0] == "";
    }
  }


  lemma BlackQueenCaptured(positions: string)
    requires Count(positions, 'q') == 0
    requires Count(positions, 'P') == 8 && Count(positions, 'B') == 2 && Count(positions, 'N') == 2
      && Count(positions, 'R') == 2 && Count(positions, 'Q') == 1 && Count(positions, 'K') == 1
      && Count(positions, 'p') == 8 && Count(positions, 'b') == 2 && Count(positions, 'n') == 2
      && Count(positions, 'r') == 2 && Count(positions, 'k') == 1
    ensures GetCaptured(positions) == Some(("", "q"))
  {
    assert GetCapturedPieces(positions, 'P', 'B', 'N', 'R', 'Q', 'K') == Some("");
    assert GetCapturedPieces(positions, 'p', 'b', 'n', 'r', 'q', 'k') == Some("q") by {
      assert Repeat('p', 0) == Repeat('b', 0) == Repeat('n', 0) == Repeat('r', 0) == Repeat('k', 0) == "";
      assert Repeat('q', 1) == "q";
      assert "" + "" + "" + "" + "q" + "" == "q";
    }
  }

  /** A promoted piece beyond the starting complement makes the calculator panic. */
  lemma PromotionPanics(positions: string)
    requires Count(positions, 'Q') >= 2
    ensures AdvantageLetters(positions).None? && ScoreLines(positions).None?
  {
  }
}
