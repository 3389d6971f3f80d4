/** The stereo-to-mono loop of out_write (audio_a2dp_hw/src/audio_a2dp_hw.cc): it reads and writes the
    same buffer, the write position trailing the read position. */
module Downmix {
  type Sample = x: int | -32768 <= x <= 32767

  /** The average of the two channels, rounded down; the shift of a 32-bit sum in the source. */
  function Mix(left: Sample, right: Sample): (m: Sample)
    ensures (left <= m <= right) || (right <= m <= left)
    ensures 2 * m <= left + right <= 2 * m + 1
  {
    (left + right) / 2
  }

  /** Frame k of a stereo buffer, mixed. */
  function MixedFrame(stereo: seq<Sample>, k: nat): Sample
    requires 2 * k + 1 < |stereo|
  {
    Mix(stereo[2 * k], stereo[2 * k + 1])
  }

  /** Afterwards frame k is the average of the two samples it had at the start, for every frame, and
      nothing behind the mixed frames has changed. */
  method MixInPlace(buffer: array<Sample>, frames: nat)
    requires 2 * frames <= buffer.Length
    modifies buffer
    ensures forall k :: 0 <= k < frames ==> buffer[k] == MixedFrame(old(buffer[..]), k)
    ensures buffer[frames..] == old(buffer[frames..])
  {
    ghost var stereo := buffer[..];
    var src, dst := 0, 0;
    for i := 0 to frames
      invariant dst == i && src == 2 * i
      invariant forall k :: 0 <= k < i ==> buffer[k] == MixedFrame(stereo, k)
      invariant forall k :: i <= k < buffer.Length ==> buffer[k] == stereo[k]
    {
      var left: int, right: int := buffer[src], buffer[src + 1];
      buffer[dst] := (left + right) / 2;
      dst, src := dst + 1, src + 2;
    }
  }
}
