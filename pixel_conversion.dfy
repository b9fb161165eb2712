/** The in-place pixel conversions the image renderers apply to a frame
    before uploading it: 0RGB1555 words rewritten as RGB565, and the red and
    blue bytes of XRGB8888 pixels swapped. The renderers read the frame
    memory as 16-bit words for the first and as bytes for the second. */
module PixelConversion {

  /** One 0RGB1555 word as RGB565: blue (bits 0-4) stays, green (bits 5-9)
      moves to bits 6-10 with a zero below it, red (bits 10-14) moves to
      bits 11-15; the unused top bit of the input is dropped. */
  function From0RGB1555(w: bv16): (r: bv16)
    ensures r & 0x1F == w & 0x1F
    ensures r & 0x20 == 0
    ensures (r >> 6) & 0x1F == (w >> 5) & 0x1F
    ensures r >> 11 == (w >> 10) & 0x1F
  {
    (0x1F & w) | ((0x3E0 & w) << 1) | ((0x7C00 & w) << 1)
  }

  /** The reverse mapping, RGB565 back to 0RGB1555 (dropping green's low bit). */
  function To0RGB1555(r: bv16): (w: bv16)
    ensures w & 0x8000 == 0
  {
    (r & 0x1F) | ((r >> 1) & 0x7FE0)
  }

  /** The conversion loses only the unused top bit ... */
  lemma {:induction false} ConversionRoundTrip(w: bv16)
    ensures To0RGB1555(From0RGB1555(w)) == w & 0x7FFF
  {
  }

  /** ... and every RGB565 word whose green low bit is 0 is reached. */
  lemma {:induction false} ConversionReachesEvenGreen(r: bv16)
    requires r & 0x20 == 0
    ensures From0RGB1555(To0RGB1555(r)) == r
  {
  }

  /** The loop of convertDataFrom0RGB1555: the first `count` words of the
      frame are converted in place, the rest keep their value. */
  method Convert0RGB1555Words(data: array<bv16>, count: nat)
    requires count <= data.Length
    modifies data
    ensures forall j :: 0 <= j < count ==> data[j] == From0RGB1555(old(data[j]))
    ensures forall j :: count <= j < data.Length ==> data[j] == old(data[j])
  {
    var i := 0;
    while i < count
      invariant i <= count
      invariant forall j :: 0 <= j < i ==> data[j] == From0RGB1555(old(data[j]))
      invariant forall j :: i <= j < data.Length ==> data[j] == old(data[j])
    {
      data[i] := From0RGB1555(data[i]);
      i := i + 1;
    }
  }

  /** The frame after red and blue were swapped in every 4-byte pixel whose
      first byte lies below `limit`. */
  function RedBlueSwapped(bytes: seq<bv8>, limit: int): (r: seq<bv8>)
    requires limit <= |bytes| - 2
    ensures |r| == |bytes|
    ensures forall i :: 0 <= i < |bytes| && i % 4 == 0 && i < limit ==> r[i] == bytes[i + 2] && r[i + 2] == bytes[i]
  {
    seq(|bytes|, j requires 0 <= j < |bytes| =>
      if j % 4 == 0 && j < limit then bytes[j + 2]
      else if j % 4 == 2 && j - 2 < limit then bytes[j - 2]
      else bytes[j])
  }

  /** Only the red and blue bytes of the swapped pixels change: green, alpha
      and every byte of the later pixels keep their value. */
  lemma {:induction false} RedBlueSwappedKeepsOthers(bytes: seq<bv8>, limit: int, j: nat)
    requires limit <= |bytes| - 2 && j < |bytes|
    requires j % 2 == 1 || j - j % 4 >= limit
    ensures RedBlueSwapped(bytes, limit)[j] == bytes[j]
  {
  }

  /** Swapping twice with the same limit restores the frame. */
  lemma {:induction false} RedBlueSwapTwice(bytes: seq<bv8>, limit: int)
    requires limit <= |bytes| - 2
    ensures RedBlueSwapped(RedBlueSwapped(bytes, limit), limit) == bytes
  {
    var once := RedBlueSwapped(bytes, limit);
    forall j | 0 <= j < |bytes|
      ensures RedBlueSwapped(once, limit)[j] == bytes[j]
    {
      if j % 4 == 2 && j - 2 < limit {
        assert (j - 2) % 4 == 0;
      }
    }
  }

  /** With no pixel below the limit, nothing is swapped. */
  lemma {:induction false} RedBlueSwappedNone(bytes: seq<bv8>, limit: int)
    requires limit <= 0 && limit <= |bytes| - 2
    ensures RedBlueSwapped(bytes, limit) == bytes
  {
    assert forall j :: 0 <= j < |bytes| ==> RedBlueSwapped(bytes, limit)[j] == bytes[j];
  }

  /** Swapping the pixel at i extends the swapped prefix by one pixel. */
  lemma {:induction false} RedBlueSwappedStep(bytes: seq<bv8>, i: nat, limit: int)
    requires i % 4 == 0 && i < limit <= |bytes| - 2
    ensures RedBlueSwapped(bytes, i)[i := bytes[i + 2]][i + 2 := bytes[i]] ==
      RedBlueSwapped(bytes, if i + 4 < limit then i + 4 else limit)
  {
    var next := if i + 4 < limit then i + 4 else limit;
    var lhs := RedBlueSwapped(bytes, i)[i := bytes[i + 2]][i + 2 := bytes[i]];
    forall j | 0 <= j < |bytes|
      ensures lhs[j] == RedBlueSwapped(bytes, next)[j]
    {
      if j != i && j != i + 2 {
        assert j % 4 == 0 ==> (j < i <==> j < next);
        assert j % 4 == 2 ==> (j - 2 < i <==> j - 2 < next);
      }
    }
  }

  /** The swap loop: i = 0, 4, 8, ... while i < limit. */
  method SwapRedBlue(data: array<bv8>, limit: int)
    requires limit <= data.Length - 2
    modifies data
    ensures data[..] == RedBlueSwapped(old(data[..]), limit)
  {
    ghost var before := data[..];
    var i := 0;
    RedBlueSwappedNone(before, if 0 < limit then 0 else limit);
    while i < limit
      invariant i % 4 == 0
      invariant data[..] == RedBlueSwapped(before, if i < limit then i else limit)
    {
      RedBlueSwappedStep(before, i, limit);
      var currentRed := data[i];
      var currentBlue := data[i + 2];
      data[i] := currentBlue;
      data[i + 2] := currentRed;
      i := i + 4;
    }
  }

  /** convertDataFromRGB8888 as written: the loop runs while i < size - 4, so
      the pixel starting at size - 4 is never swapped. With fewer than 4 bytes
      the unsigned subtraction wraps and the loop overruns the frame. */
  method ConvertFromRGB8888(data: array<bv8>, size: nat)
    requires 4 <= size <= data.Length
    modifies data
    ensures data[..] == RedBlueSwapped(old(data[..]), size - 4)
  {
    SwapRedBlue(data, size - 4);
  }

  /** The intended conversion: every whole pixel of the first `size` bytes,
      that is every i with i + 4 <= size, has red and blue swapped. */
  method ConvertFromRGB8888Fixed(data: array<bv8>, size: nat)
    requires size <= data.Length
    modifies data
    ensures data[..] == RedBlueSwapped(old(data[..]), size - 3)
    ensures forall i :: 0 <= i && i + 4 <= size && i % 4 == 0 ==>
      data[i] == old(data[i + 2]) && data[i + 2] == old(data[i])
  {
    SwapRedBlue(data, size - 3);
  }

  /** Counterexample: a one-pixel frame comes out of the as-written loop
      unchanged, while the intended conversion swaps its red and blue. */
  lemma LastPixelSkipped()
    ensures RedBlueSwapped([1, 2, 3, 4], 4 - 4) == [1, 2, 3, 4]
    ensures RedBlueSwapped([1, 2, 3, 4], 4 - 3) == [3, 2, 1, 4]
  {
    var s: seq<bv8> := [1, 2, 3, 4];
    assert RedBlueSwapped(s, 1)[0] == 3;
    assert RedBlueSwapped(s, 1)[2] == 1;
  }

  /** In general the as-written loop leaves the last whole pixel of a frame
      whose size is a multiple of 4 untouched. */
  lemma {:induction false} LastPixelUnswapped(bytes: seq<bv8>, size: nat)
    requires 4 <= size <= |bytes| && size % 4 == 0
    ensures RedBlueSwapped(bytes, size - 4)[size - 4] == bytes[size - 4]
    ensures RedBlueSwapped(bytes, size - 3)[size - 4] == bytes[size - 2]
  {
  }
}
