/**
  The parts of Go's unicode/utf8 package that the input buffer relies on:
  string(c) for a rune c, DecodeRuneInString and DecodeLastRuneInString, on
  byte sequences. The decoder follows the package's first-byte table and
  accept ranges, so overlong forms, surrogates and code points above
  U+10FFFF decode to (RuneError, 1). Bit masks of the form b & (2^k - 1) on
  the lead and continuation bytes are written as b % 2^k, which is the same
  value for a byte.
 */
module Utf8 {

  type Byte = x: int | 0 <= x < 256

  /** Go's rune, an int32. */
  type Rune = x: int | -0x8000_0000 <= x < 0x8000_0000

  const RuneError := 0xFFFD
  const RuneSelf := 0x80
  const UTFMax := 4
  const MaxRune := 0x10FFFF

  /** A Unicode scalar value: not a surrogate, not above U+10FFFF, not negative. */
  predicate ValidRune(c: int)
  {
    (0 <= c < 0xD800) || (0xDFFF < c <= MaxRune)
  }

  /** The rune string(c) actually encodes: invalid runes become RuneError. */
  function Canonical(c: Rune): (r: int)
    ensures ValidRune(r)
    ensures ValidRune(c) ==> r == c
  {
    if ValidRune(c) then c else RuneError
  }

  /** The number of bytes string(c) takes. */
  function EncodedLength(r: int): nat
  {
    if r < 0x80 then 1 else if r < 0x800 then 2 else if r < 0x10000 then 3 else 4
  }

  /** string(c): the UTF-8 encoding of a rune, RuneError's encoding for an invalid one. */
  function EncodeRune(c: Rune): (e: seq<Byte>)
    ensures |e| == EncodedLength(Canonical(c)) && 1 <= |e| <= UTFMax
    ensures |e| == 1 <==> 0 <= c < RuneSelf
    ensures |e| == 1 ==> e[0] == c
    ensures |e| > 1 ==> 0xC2 <= e[0] <= 0xF4 && forall i :: 1 <= i < |e| ==> 0x80 <= e[i] <= 0xBF
  {
    var r := Canonical(c);
    if r < 0x80 then [r]
    else if r < 0x800 then [0xC0 + r / 64, 0x80 + r % 64]
    else if r < 0x10000 then [0xE0 + r / 4096, 0x80 + r / 64 % 64, 0x80 + r % 64]
    else [0xF0 + r / 0x40000, 0x80 + r / 4096 % 64, 0x80 + r / 64 % 64, 0x80 + r % 64]
  }

  /** DecodeRuneInString: the first rune of s and its size; (RuneError, 0) for "" and (RuneError, 1) for a bad encoding. */
  function DecodeRune(s: seq<Byte>): (res: (int, nat))
    ensures res.1 == 0 <==> |s| == 0
    ensures res.1 <= |s| && res.1 <= UTFMax
    ensures res.1 > 1 ==> ValidRune(res.0) && EncodedLength(res.0) == res.1
  {
    if |s| == 0 then (RuneError, 0)
    else
      var s0 := s[0];
      if s0 < 0x80 then (s0, 1)
      else if s0 < 0xC2 || 0xF4 < s0 then (RuneError, 1)
      else
        var size := if s0 < 0xE0 then 2 else if s0 < 0xF0 then 3 else 4;
        var lo := if s0 == 0xE0 then 0xA0 else if s0 == 0xF0 then 0x90 else 0x80;
        var hi := if s0 == 0xED then 0x9F else if s0 == 0xF4 then 0x8F else 0xBF;
        if |s| < size then (RuneError, 1)
        else if s[1] < lo || hi < s[1] then (RuneError, 1)
        else if size == 2 then ((s0 % 32) * 64 + s[1] % 64, 2)
        else if s[2] < 0x80 || 0xBF < s[2] then (RuneError, 1)
        else if size == 3 then ((s0 % 16) * 4096 + (s[1] % 64) * 64 + s[2] % 64, 3)
        else if s[3] < 0x80 || 0xBF < s[3] then (RuneError, 1)
        else ((s0 % 8) * 0x40000 + (s[1] % 64) * 4096 + (s[2] % 64) * 64 + s[3] % 64, 4)
  }

  /** utf8.RuneStart: b is not a continuation byte. */
  predicate RuneStart(b: Byte)
  {
    !(0x80 <= b <= 0xBF)
  }

  /**
    The backward scan of DecodeLastRuneInString: from start down to lim, the
    first index holding a rune start, or lim - 1 when there is none.
   */
  function ScanBack(s: seq<Byte>, start: int, lim: nat): (i: int)
    requires lim - 1 <= start < |s|
    ensures lim - 1 <= i <= start
    ensures i >= lim ==> RuneStart(s[i])
    ensures forall j :: i < j <= start ==> !RuneStart(s[j])
    decreases start - lim
  {
    if start < lim then start
    else if RuneStart(s[start]) then start
    else ScanBack(s, start - 1, lim)
  }

  /** DecodeLastRuneInString: the last rune of s and its size. */
  function DecodeLastRune(s: seq<Byte>): (res: (int, nat))
    ensures res.1 == 0 <==> |s| == 0
    ensures res.1 <= |s|
  {
    var end := |s|;
    if end == 0 then (RuneError, 0)
    else if s[end - 1] < RuneSelf then (s[end - 1], 1)
    else
      var lim := if end - UTFMax < 0 then 0 else end - UTFMax;
      var scanned := ScanBack(s, end - 2, lim);
      var start := if scanned < 0 then 0 else scanned;
      var (r, size) := DecodeRune(s[start..]);
      if start + size != end then (RuneError, 1) else (r, size)
  }

  /** trimLastChar (pkg/input.go): s without its last rune; unchanged when s is empty or ends in a bad encoding. */
  function TrimLastChar(s: seq<Byte>): (t: seq<Byte>)
    ensures |t| <= |s| && t == s[..|t|]
    ensures s == [] ==> t == []
  {
    var (r, size) := DecodeLastRune(s);
    var cut := if r == RuneError && (size == 0 || size == 1) then 0 else size;
    s[..|s| - cut]
  }

  /** The bytes of a sequence of runes, each as string(c) would give it. */
  function EncodeAll(runes: seq<Rune>): (bytes: seq<Byte>)
    ensures |runes| == 0 ==> bytes == []
  {
    if runes == [] then [] else EncodeAll(runes[..|runes| - 1]) + EncodeRune(runes[|runes| - 1])
  }

  // ---------------------------------------------------------------------------
  // Round trips

  lemma DecodeTwo(r: int, rest: seq<Byte>)
    requires 0x80 <= r < 0x800
    ensures DecodeRune([0xC0 + r / 64, 0x80 + r % 64] + rest) == (r, 2)
  {
    var s := [0xC0 + r / 64, 0x80 + r % 64] + rest;
    assert s[0] % 32 == r / 64;
  }

  lemma DecodeThree(r: int, rest: seq<Byte>)
    requires 0x800 <= r < 0x10000 && ValidRune(r)
    ensures DecodeRune([0xE0 + r / 4096, 0x80 + r / 64 % 64, 0x80 + r % 64] + rest) == (r, 3)
  {
    var a, m, l := r / 4096, r / 64 % 64, r % 64;
    assert r / 64 == a * 64 + m;
    assert r == a * 4096 + m * 64 + l;
    assert 0 <= a < 16;
    var s := [0xE0 + a, 0x80 + m, 0x80 + l] + rest;
    assert s[0] % 16 == a && s[1] % 64 == m && s[2] % 64 == l;
    if a == 0 {
      assert m >= 0x20;
    }
    if a == 13 {
      assert m < 0x20;
    }
    assert DecodeRune(s) == (a * 4096 + m * 64 + l, 3);
  }

  lemma DecodeFour(r: int, rest: seq<Byte>)
    requires 0x10000 <= r <= MaxRune
    ensures DecodeRune([0xF0 + r / 0x40000, 0x80 + r / 4096 % 64, 0x80 + r / 64 % 64, 0x80 + r % 64] + rest) == (r, 4)
  {
    var a, h, m, l := r / 0x40000, r / 4096 % 64, r / 64 % 64, r % 64;
    assert r / 4096 == a * 64 + h;
    assert r / 64 == (r / 4096) * 64 + m;
    assert r == a * 0x40000 + h * 4096 + m * 64 + l;
    assert 0 <= a <= 4;
    var s := [0xF0 + a, 0x80 + h, 0x80 + m, 0x80 + l] + rest;
    assert s[0] % 8 == a && s[1] % 64 == h && s[2] % 64 == m && s[3] % 64 == l;
    if a == 0 {
      assert h >= 0x10;
    }
    if a == 4 {
      assert h < 0x10;
    }
    assert DecodeRune(s) == (a * 0x40000 + h * 4096 + m * 64 + l, 4);
  }

  /** Decoding the front of string(c) + rest yields c (RuneError if c is invalid) and the size of string(c). */
  lemma DecodeEncoded(c: Rune, rest: seq<Byte>)
    ensures DecodeRune(EncodeRune(c) + rest) == (Canonical(c), |EncodeRune(c)|)
  {
    var r := Canonical(c);
    if r < 0x80 {
    } else if r < 0x800 {
      DecodeTwo(r, rest);
    } else if r < 0x10000 {
      DecodeThree(r, rest);
    } else {
      DecodeFour(r, rest);
    }
  }

  /** The backward scan stops at the lead byte of the last encoded rune. */
  lemma ScanFindsLead(s: seq<Byte>, e: seq<Byte>)
    requires 2 <= |e| <= UTFMax && RuneStart(e[0])
    requires forall i :: 1 <= i < |e| ==> !RuneStart(e[i])
    ensures var end := |s + e|;
      ScanBack(s + e, end - 2, if end - UTFMax < 0 then 0 else end - UTFMax) == |s|
  {
    var all := s + e;
    var end := |all|;
    var lim := if end - UTFMax < 0 then 0 else end - UTFMax;
    assert forall j :: |s| <= j < end ==> all[j] == e[j - |s|];
    assert RuneStart(all[|s|]);
    assert forall j :: |s| < j < end ==> !RuneStart(all[j]);
  }

  /** Whatever precedes it, the last rune of s + string(c) is found and decoded whole. */
  lemma DecodeLastEncoded(s: seq<Byte>, c: Rune)
    ensures DecodeLastRune(s + EncodeRune(c)) == (Canonical(c), |EncodeRune(c)|)
  {
    var e := EncodeRune(c);
    if |e| == 1 {
      assert (s + e)[|s + e| - 1] == e[0];
    } else {
      DecodeLastWide(s, c);
    }
  }

  /** The multi-byte case: the scan stops at the lead byte and the whole encoding decodes. */
  lemma DecodeLastWide(s: seq<Byte>, c: Rune)
    requires |EncodeRune(c)| > 1
    ensures DecodeLastRune(s + EncodeRune(c)) == (Canonical(c), |EncodeRune(c)|)
  {
    var e := EncodeRune(c);
    var all := s + e;
    assert RuneStart(e[0]);
    assert forall i :: 1 <= i < |e| ==> !RuneStart(e[i]);
    ScanFindsLead(s, e);
    assert all[|s|..] == e + [];
    DecodeEncoded(c, []);
    DecodeLastFrom(all, |s|);
  }

  /** Once the scan has found a lead byte at start, the last rune is what decodes from there, if it reaches the end. */
  lemma DecodeLastFrom(all: seq<Byte>, start: nat)
    requires start + 2 <= |all| && all[|all| - 1] >= RuneSelf
    requires ScanBack(all, |all| - 2, if |all| - UTFMax < 0 then 0 else |all| - UTFMax) == start
    requires start + DecodeRune(all[start..]).1 == |all|
    ensures DecodeLastRune(all) == DecodeRune(all[start..])
  {
  }

  /** Backspace undoes an append: trimming the last rune of s + string(c) gives back s. */
  lemma TrimAppended(s: seq<Byte>, c: Rune)
    ensures TrimLastChar(s + EncodeRune(c)) == s
  {
    DecodeLastEncoded(s, c);
    var e := EncodeRune(c);
    if |e| == 1 {
      assert (s + e)[|s + e| - 1] == c;
    }
    assert (s + e)[..|s|] == s;
  }

  /** Trimming the encoding of a rune sequence drops exactly its last rune. */
  lemma TrimEncodeAll(runes: seq<Rune>)
    requires runes != []
    ensures TrimLastChar(EncodeAll(runes)) == EncodeAll(runes[..|runes| - 1])
  {
    TrimAppended(EncodeAll(runes[..|runes| - 1]), runes[|runes| - 1]);
  }

  /** Encoding a longer run of runes never gives fewer bytes. */
  lemma {:induction false} EncodeAllMonotone(runes: seq<Rune>, n: nat)
    requires n <= |runes|
    ensures |EncodeAll(runes[..n])| <= |EncodeAll(runes)|
    decreases |runes|
  {
    if n < |runes| {
      var init := runes[..|runes| - 1];
      assert runes[..n] == init[..n];
      EncodeAllMonotone(init, n);
    } else {
      assert runes[..n] == runes;
    }
  }

  predicate AllAscii(bytes: seq<Byte>)
  {
    forall i :: 0 <= i < |bytes| ==> bytes[i] < RuneSelf
  }
}
