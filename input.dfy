/**
  pkg/input.go: the line editor behind the move prompt. The buffer is a Go
  string, i.e. bytes; its capacity (MaxLength) is checked in bytes before an
  append, so one multi-byte rune appended at 9 bytes takes it past
  MaxLength, and Current then panics on a negative strings.Repeat count.
 */
module InputBuffer {
  import opened Wrappers
  import opened Utf8

  /** MaxLength: the width of the input field, in bytes. */
  const MaxLength := 10

  const Space: Byte := 32

  /**
    The rune sequences a buffer can hold: Append only extends a buffer of
    fewer than MaxLength bytes, so everything but the last rune is shorter
    than MaxLength.
   */
  ghost predicate Reachable(runes: seq<Rune>)
  {
    |runes| > 0 ==> |EncodeAll(runes[..|runes| - 1])| < MaxLength
  }

  /**
    A reachable buffer holds at most MaxLength + 3 bytes, and at most
    MaxLength when every byte in it is ASCII.
   */
  lemma BufferBounds(runes: seq<Rune>)
    requires Reachable(runes)
    ensures |EncodeAll(runes)| <= MaxLength + UTFMax - 1
    ensures AllAscii(EncodeAll(runes)) ==> |EncodeAll(runes)| <= MaxLength
  {
    if runes != [] {
      var init := EncodeAll(runes[..|runes| - 1]);
      var last := EncodeRune(runes[|runes| - 1]);
      var all := EncodeAll(runes);
      assert all == init + last;
      if |last| > 1 {
        assert all[|init|] == last[0];
      }
    }
  }

  /** Removing the last rune of a reachable buffer leaves a reachable buffer. */
  lemma ReachableInit(runes: seq<Rune>)
    requires Reachable(runes) && runes != []
    ensures Reachable(runes[..|runes| - 1])
  {
    var init := runes[..|runes| - 1];
    if init != [] {
      EncodeAllMonotone(init, |init| - 1);
      assert init[..|init| - 1] == runes[..|runes| - 2];
    }
  }

  /** Nine ASCII letters and then an e-acute: a reachable 11-byte buffer, too wide for Current. */
  lemma WideRuneOverflow()
    ensures var runes: seq<Rune> := [97, 97, 97, 97, 97, 97, 97, 97, 97, 0xE9];
      Reachable(runes) && |EncodeAll(runes)| == MaxLength + 1
  {
    var runes: seq<Rune> := [97, 97, 97, 97, 97, 97, 97, 97, 97, 0xE9];
    var ascii: seq<Rune> := [97, 97, 97, 97, 97, 97, 97, 97, 97];
    assert runes[..9] == ascii;
    AsciiLength(ascii);
  }

  lemma {:induction false} AsciiLength(runes: seq<Rune>)
    requires forall i :: 0 <= i < |runes| ==> 0 <= runes[i] < RuneSelf
    ensures |EncodeAll(runes)| == |runes|
  {
    if runes != [] {
      AsciiLength(runes[..|runes| - 1]);
    }
  }

  /** Input: the buffer, with the runes appended to it as a ghost history. */
  class Input {
    var buffer: seq<Byte>
    ghost var runes: seq<Rune>

    ghost predicate Valid()
      reads this
    {
      buffer == EncodeAll(runes) && Reachable(runes)
    }

    /** NewInput: an empty buffer. */
    constructor ()
      ensures Valid() && buffer == [] && runes == []
    {
      buffer := [];
      runes := [];
    }

    /** Append: adds string(c) when the buffer is shorter than MaxLength bytes; returns the buffer. */
    method Append(c: Rune) returns (b: seq<Byte>)
      requires Valid()
      modifies this
      ensures Valid()
      ensures old(|buffer|) < MaxLength ==> buffer == old(buffer) + EncodeRune(c) && runes == old(runes) + [c]
      ensures old(|buffer|) >= MaxLength ==> buffer == old(buffer) && runes == old(runes)
      ensures b == buffer
    {
      if |buffer| < MaxLength {
        assert (runes + [c])[..|runes|] == runes;
        buffer := buffer + EncodeRune(c);
        runes := runes + [c];
      }
      b := buffer;
    }

    /** Backspace: removes the last whole rune of the buffer; returns the buffer. */
    method Backspace() returns (b: seq<Byte>)
      requires Valid()
      modifies this
      ensures Valid()
      ensures buffer == TrimLastChar(old(buffer))
      ensures old(runes) != [] ==> runes == old(runes)[..|old(runes)| - 1]
      ensures old(buffer) == [] ==> buffer == []
      ensures b == buffer
    {
      if runes != [] {
        TrimEncodeAll(runes);
        ReachableInit(runes);
        runes := runes[..|runes| - 1];
      }
      buffer := TrimLastChar(buffer);
      b := buffer;
    }

    /**
      Current: the buffer padded with spaces to MaxLength bytes; None where
      strings.Repeat panics, i.e. when the buffer is wider than MaxLength.
     */
    function Current(): (r: Option<seq<Byte>>)
      reads this
      ensures r.Some? <==> |buffer| <= MaxLength
      ensures r.Some? ==> (|r.value| == MaxLength && r.value[..|buffer|] == buffer
                           && forall i :: |buffer| <= i < MaxLength ==> r.value[i] == Space)
    {
      if MaxLength - |buffer| < 0 then None
      else Some(buffer + seq(MaxLength - |buffer|, _ => Space))
    }

    /** Length: the buffer's size in bytes, at most MaxLength + 3 and at most MaxLength for ASCII. */
    function Length(): (n: nat)
      requires Valid()
      reads this
      ensures n == |buffer|
      ensures n <= MaxLength + UTFMax - 1 && (AllAscii(buffer) ==> n <= MaxLength)
    {
      BufferBounds(runes);
      |buffer|
    }

    /** Clear: empties the buffer; returns it. */
    method Clear() returns (b: seq<Byte>)
      requires Valid()
      modifies this
      ensures Valid() && buffer == [] && runes == []
      ensures b == []
    {
      buffer := [];
      runes := [];
      b := buffer;
    }

    /** An accepted Append followed by Backspace leaves the buffer as it was. */
    method AppendThenBackspace(c: Rune)
      requires Valid() && |buffer| < MaxLength
      modifies this
      ensures Valid() && buffer == old(buffer) && runes == old(runes)
    {
      var _ := Append(c);
      var _ := Backspace();
    }
  }
}
