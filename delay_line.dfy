/** The delay buffer shared by the two audio callbacks: a C x K array of
    samples, modelled as C rows of K-channel frames. The capture callback
    writes into it and the playback callback reads from its front. */
module DelayBuffer {
  import opened Frames

  class DelayLine {
    /** The rows of the buffer; a write rebinds it to a freshly rolled copy. */
    var buffer: array<Frame>
    /** K, the number of channels of every row. */
    const channels: nat

    ghost predicate Valid()
      reads this, buffer
    {
      forall i | 0 <= i < buffer.Length :: |buffer[i]| == channels
    }

    /** C, the number of frames the buffer retains. */
    function Capacity(): nat
      reads this
    {
      buffer.Length
    }

    ghost function Contents(): seq<Frame>
      reads this, buffer
    {
      buffer[..]
    }

    /** A zero-filled buffer of `capacity` frames of `channels` samples. */
    constructor (capacity: nat, channels: nat)
      ensures Valid() && fresh(buffer)
      ensures this.channels == channels
      ensures Contents() == Silence(capacity, channels)
    {
      buffer := new Frame[capacity](_ => SilentFrame(channels));
      this.channels := channels;
    }

    /** The capture callback: roll the rows left by the block length, then
        assign the block to the last rows. The assignment follows numpy's
        slicing and broadcasting: it succeeds when the block has exactly as
        many rows as the slice `[-n:]` selects (or a single row, which is
        broadcast), and otherwise fails after the roll has already been
        stored. */
    method Write(block: seq<Frame>) returns (ok: bool)
      requires Valid()
      requires forall j | 0 <= j < |block| :: |block[j]| == channels
      modifies this
      ensures Valid() && fresh(buffer)
      ensures Capacity() == old(Capacity())
      ensures ok <==> WriteFits(Capacity(), |block|)
      ensures ok ==> Contents() == Slide(old(Contents()), block)
      ensures !ok ==> Contents() == RollLeft(old(Contents()), |block|)
    {
      ghost var before := buffer[..];
      var c := buffer.Length;
      var n := |block|;
      var src := buffer;
      var shift := if c == 0 then 0 else n % c;
      var rolled := new Frame[c](i requires 0 <= i < c reads src =>
        if i < c - shift then src[i + shift] else src[i + shift - c]);
      assert rolled[..] == RollLeft(before, n);
      buffer := rolled;
      // rows selected by `buffer[-n:]`; `[-0:]` selects every row
      var rows := if n == 0 then c else if n < c then n else c;
      ok := n == rows || n == 1;
      if ok && 0 < rows {
        forall j | 0 <= j < rows {
          rolled[c - rows + j] := block[j];
        }
        assert rolled[..] == RollLeft(before, n)[..c - n] + block;
        RollThenOverwriteIsSlide(before, block);
      }
    }

    /** The playback callback: copy the first `outdata.Length` rows of the
        buffer into `outdata`. numpy broadcasts a single-row buffer over a
        longer output block; any other shortfall is a shape mismatch, which
        leaves `outdata` untouched. */
    method Read(outdata: array<Frame>) returns (ok: bool)
      requires Valid()
      requires outdata != buffer
      modifies outdata
      ensures ok <==> (outdata.Length <= Capacity() || Capacity() == 1)
      ensures ok && outdata.Length <= Capacity() ==> outdata[..] == Contents()[..outdata.Length]
      ensures ok && outdata.Length > Capacity() ==>
        forall i | 0 <= i < outdata.Length :: outdata[i] == Contents()[0]
      ensures !ok ==> outdata[..] == old(outdata[..])
    {
      var c := buffer.Length;
      var count := outdata.Length;
      var rows := if count < c then count else c;
      ok := rows == count || rows == 1;
      if ok {
        forall i | 0 <= i < count {
          outdata[i] := buffer[if count <= c then i else 0];
        }
      }
    }
  }

  /** The capture and playback callbacks in turn on a fresh one-channel line
      of capacity `c`: after the ramp 0 .. c - 1 has been captured, playback
      of one frame yields frame 0; after one more frame `c`, it yields 1. */
  method RampThroughLine(c: nat) returns (first: Frame, second: Frame)
    requires c >= 1
    ensures first == [0.0] && second == [1.0]
  {
    var line := new DelayLine(c, 1);
    var ramp := Ramp(c);
    assert forall j | 0 <= j < |ramp| :: |ramp[j]| == 1;
    RampFillsWindow(c);
    var ok := line.Write(ramp);
    assert line.Contents()[0] == [0.0];
    var out := new Frame[1];
    ok := line.Read(out);
    first := out[0];
    ok := line.Write([[c as real]]);
    ok := line.Read(out);
    second := out[0];
  }
}
