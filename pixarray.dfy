/** The pixel type and the buffer operations of the external `pixarray`
    package that the engine draws through. The buffer is an array of pixels
    changed in place; pushing it to the hardware is an event of the trace
    (module Trace), not part of this module. */
module Pixarray {

  datatype Pixel = Pixel(R: int, G: int, B: int, W: int)

  /** `pixarray.Pixel{}`: every channel zero. */
  const Off: Pixel := Pixel(0, 0, 0, 0)

  /** A buffer of `n` pixels all equal to `p`. */
  function Fill(n: nat, p: Pixel): (f: seq<Pixel>)
    ensures |f| == n && forall i :: 0 <= i < n ==> f[i] == p
  {
    seq(n, _ => p)
  }

  /** `PixArray.SetAll(p)`: every pixel of the buffer becomes `p`. */
  method SetAll(arr: array<Pixel>, p: Pixel)
    modifies arr
    ensures arr[..] == Fill(arr.Length, p)
  {
    var i := 0;
    while i < arr.Length
      invariant 0 <= i <= arr.Length
      invariant forall k :: 0 <= k < i ==> arr[k] == p
    {
      arr[i] := p;
      i := i + 1;
    }
  }
}
