/** Frames and the sliding-window arithmetic behind the delay line.
    A frame holds one sample per channel; the program never computes with
    samples, it only stores and returns them. */
module Frames {

  type Frame = seq<real>

  /** A frame of `k` zero samples. */
  function SilentFrame(k: nat): Frame {
    seq(k, _ => 0.0)
  }

  /** `c` silent frames of `k` channels: what `np.zeros((c, k))` holds. */
  function Silence(c: nat, k: nat): (r: seq<Frame>)
    ensures |r| == c
    ensures forall i | 0 <= i < c :: |r[i]| == k
    ensures forall i, j | 0 <= i < c && 0 <= j < k :: r[i][j] == 0.0
  {
    seq(c, _ => SilentFrame(k))
  }

  /** `np.roll(w, -k, axis=0)`: numpy reduces the shift modulo the length
      and moves that many frames from the front to the back, so every other
      frame moves `k` places towards the front. */
  function RollLeft(w: seq<Frame>, k: nat): (r: seq<Frame>)
    ensures |r| == |w|
    ensures forall i | 0 <= i < |w| - k :: r[i] == w[i + k]
    ensures |w| > 0 ==> r == w[k % |w|..] + w[..k % |w|]
  {
    if |w| == 0 then []
    else
      var s := k % |w|;
      assert k < |w| ==> s == k;
      w[s..] + w[..s]
  }

  /** Whether numpy accepts the slice assignment of an `n`-frame block to
      the last rows of a `c`-frame buffer: `[-n:]` selects `min(n, c)` rows
      (every row when `n == 0`), and a block must match that count or have
      a single row, which is broadcast. */
  predicate WriteFits(c: nat, n: nat) {
    1 <= n <= c || (c == 0 && n <= 1)
  }

  /** Every block of `blocks` is one that a `c`-frame buffer accepts. */
  predicate AllFit(c: nat, blocks: seq<seq<Frame>>) {
    forall k | 0 <= k < |blocks| :: WriteFits(c, |blocks[k]|)
  }

  /** The last `|window|` frames of the window followed by the block: the
      window after a write the buffer accepts (`WriteFits`). A rejected
      block leaves the window rolled instead (see `DelayLine.Write`). */
  function Slide(window: seq<Frame>, block: seq<Frame>): (r: seq<Frame>)
    ensures |r| == |window|
  {
    (window + block)[|block|..]
  }

  /** The effect of rolling left by the block length and then overwriting
      the last rows with the block is exactly a slide of the window. */
  lemma RollThenOverwriteIsSlide(w: seq<Frame>, block: seq<Frame>)
    requires 1 <= |block| <= |w|
    ensures RollLeft(w, |block|)[..|w| - |block|] + block == Slide(w, block)
  {
  }

  /** After a write of `n <= C` frames, the last `n` frames are the block,
      in order. */
  lemma SlideEndsWithBlock(w: seq<Frame>, block: seq<Frame>)
    requires |block| <= |w|
    ensures Slide(w, block)[|w| - |block|..] == block
  {
  }

  /** After a write of `n` frames, frame `i` is the old frame `i + n`: the
      oldest `n` frames are dropped and nothing else moves but forward. */
  lemma SlideShiftsWindow(w: seq<Frame>, block: seq<Frame>)
    ensures forall i | 0 <= i < |w| - |block| :: Slide(w, block)[i] == w[i + |block|]
  {
  }

  /** Writing two blocks one after the other is writing their concatenation. */
  lemma SlideTwice(w: seq<Frame>, b1: seq<Frame>, b2: seq<Frame>)
    ensures Slide(Slide(w, b1), b2) == Slide(w, b1 + b2)
  {
  }

  /** Every frame written, in order, across a sequence of blocks. */
  function Flatten(blocks: seq<seq<Frame>>): (r: seq<Frame>)
  {
    if blocks == [] then [] else blocks[0] + Flatten(blocks[1..])
  }

  /** The window after each block of `blocks` has been written in turn;
      every block is one that the buffer accepts. */
  function WriteAll(w: seq<Frame>, blocks: seq<seq<Frame>>): (r: seq<Frame>)
    requires AllFit(|w|, blocks)
    ensures |r| == |w|
    decreases blocks
  {
    if blocks == [] then w else WriteAll(Slide(w, blocks[0]), blocks[1..])
  }

  lemma {:induction false} FlattenAppend(blocks: seq<seq<Frame>>, b: seq<Frame>)
    ensures Flatten(blocks + [b]) == Flatten(blocks) + b
  {
    if blocks == [] {
      assert [b][1..] == [];
    } else {
      assert (blocks + [b])[1..] == blocks[1..] + [b];
      FlattenAppend(blocks[1..], b);
    }
  }

  /** The sliding-window invariant: whatever the sizes of the accepted
      blocks, the window holds the last `|w|` frames of its initial contents
      followed by everything written. */
  lemma {:induction false} WindowLaw(w: seq<Frame>, blocks: seq<seq<Frame>>)
    requires AllFit(|w|, blocks)
    ensures WriteAll(w, blocks) == (w + Flatten(blocks))[|Flatten(blocks)|..]
    decreases blocks
  {
    if blocks != [] {
      WindowLaw(Slide(w, blocks[0]), blocks[1..]);
      SlideTwice(w, blocks[0], Flatten(blocks[1..]));
    }
  }

  /** Once accepted blocks totalling at least `|w|` frames have been
      written, position `i` holds the frame written exactly `|w| - i` frames
      ago: the lag is the capacity. */
  lemma LagIsCapacity(w: seq<Frame>, blocks: seq<seq<Frame>>, i: nat)
    requires AllFit(|w|, blocks)
    requires |Flatten(blocks)| >= |w| && i < |w|
    ensures WriteAll(w, blocks)[i] == Flatten(blocks)[|Flatten(blocks)| - |w| + i]
  {
    WindowLaw(w, blocks);
  }

  /** The single-channel ramp 0, 1, ..., c - 1. */
  function Ramp(c: nat): seq<Frame> {
    seq(c, i => [i as real])
  }

  /** Writing the ramp into a silent window of capacity `c` fills it with the
      ramp; one more frame `c` then brings frame 1 to the front. */
  lemma RampFillsWindow(c: nat)
    requires c >= 1
    ensures Slide(Silence(c, 1), Ramp(c)) == Ramp(c)
    ensures Slide(Ramp(c), [[c as real]])[0] == [1.0]
  {
    var r := Ramp(c);
    assert Slide(Silence(c, 1), r) == r;
    if c > 1 {
      assert Slide(r, [[c as real]])[0] == r[1];
    }
  }

  /** A silent window of capacity `c >= 1`, fed the ramp 0 .. c - 1 in blocks
      of any size, has frame 0 at its front; one more frame `c` moves frame 1
      to the front. */
  lemma {:induction false} RampScenario(c: nat, blocks: seq<seq<Frame>>)
    requires c >= 1 && AllFit(c, blocks) && Flatten(blocks) == Ramp(c)
    ensures WriteAll(Silence(c, 1), blocks)[0] == [0.0]
    ensures WriteAll(Silence(c, 1), blocks + [[[c as real]]])[0] == [1.0]
  {
    var more := blocks + [[[c as real]]];
    assert AllFit(c, more) by {
      forall k | 0 <= k < |more|
        ensures WriteFits(c, |more[k]|)
      {
        if k < |blocks| {
          assert more[k] == blocks[k];
        }
      }
    }
    WindowLaw(Silence(c, 1), blocks);
    WindowLaw(Silence(c, 1), blocks + [[[c as real]]]);
    FlattenAppend(blocks, [[c as real]]);
    assert (Silence(c, 1) + Ramp(c))[c] == [0.0];
    var fed := Silence(c, 1) + Ramp(c) + [[c as real]];
    if c == 1 {
      assert fed[c + 1] == [c as real];
    } else {
      assert fed[c + 1] == Ramp(c)[1];
    }
  }
}
