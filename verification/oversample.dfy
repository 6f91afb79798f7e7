/** The oversampling stage of the engine loop (oim.h:404-447): the callback
    renders `period * R` frames behind a history of retained frames in an
    interleaved buffer, and each native output frame is a symmetric FIR
    around every R-th oversampled frame. The taps are an opaque `seq<real>`
    (their windowed-sinc generation is not modelled) and reals stand in for
    single-precision floats.

    Frames are counted from the start of the oversampling buffer; frame `f`
    of channel `ch` is sample `f * Channels + ch`. */
module Oversample {
  import opened Base

  /** Interleaved channels per frame (`OIM_N_CHANNELS`). */
  const Channels: nat := 2

  /** Channel `ch` of frame `f`. */
  function At(t: seq<real>, f: nat, ch: nat): real
    requires ch < Channels && f * Channels + ch < |t|
  {
    t[f * Channels + ch]
  }

  /** The sum of `s`, accumulated from the front as the engine's loops do. */
  function Sum(s: seq<real>): real
  {
    if s == [] then 0.0 else Sum(s[..|s| - 1]) + s[|s| - 1]
  }

  lemma {:induction false} SumConcat(a: seq<real>, b: seq<real>)
    ensures Sum(a + b) == Sum(a) + Sum(b)
    decreases |b|
  {
    if b != [] {
      assert (a + b)[..|a + b| - 1] == a + b[..|b| - 1];
      SumConcat(a, b[..|b| - 1]);
    } else {
      assert a + b == a;
    }
  }

  /** Adding in the opposite order gives the same sum. */
  lemma {:induction false} SumReverse(s: seq<real>)
    ensures Sum(Reverse(s)) == Sum(s)
    decreases |s|
  {
    if s != [] {
      assert Reverse(s) == Reverse(s[1..]) + [s[0]];
      SumConcat(Reverse(s[1..]), [s[0]]);
      assert [s[0]][..0] == [];
      SumReverse(s[1..]);
      assert s == [s[0]] + s[1..];
      SumConcat([s[0]], s[1..]);
    }
  }

  /** The sum of pointwise sums is the sum of the two sums. */
  lemma {:induction false} SumAdd(a: seq<real>, b: seq<real>, c: seq<real>)
    requires |a| == |b| == |c|
    requires forall i :: 0 <= i < |c| ==> c[i] == a[i] + b[i]
    ensures Sum(c) == Sum(a) + Sum(b)
    decreases |c|
  {
    if c != [] {
      var n := |c| - 1;
      SumAdd(a[..n], b[..n], c[..n]);
    }
  }

  /** Scaling every element scales the sum. */
  lemma {:induction false} SumScale(k: real, a: seq<real>, c: seq<real>)
    requires |a| == |c|
    requires forall i :: 0 <= i < |c| ==> c[i] == k * a[i]
    ensures Sum(c) == k * Sum(a)
    decreases |c|
  {
    if c != [] {
      var n := |c| - 1;
      SumScale(k, a[..n], c[..n]);
    }
  }

  /** Changing one element by `d` changes the sum by `d`. */
  lemma {:induction false} SumBump(s: seq<real>, j: nat, d: real)
    requires j < |s|
    ensures Sum(s[j := s[j] + d]) == Sum(s) + d
    decreases |s|
  {
    var n := |s| - 1;
    var s' := s[j := s[j] + d];
    assert s'[..n] == if j < n then s[..n][j := s[j] + d] else s[..n];
    if j < n {
      SumBump(s[..n], j, d);
    }
  }

  /** The buffer holds every frame of the window centred on frame `c`:
      frames `c - |fir|` to `c + |fir|`. */
  predicate Covers(t: seq<real>, fir: seq<real>, c: nat)
  {
    |fir| <= c && (c + |fir| + 1) * Channels <= |t|
  }

  /** The causal taps around centre `c` in the order the engine adds them:
      tap `|fir| - 1 - m` on frame `c - |fir| + m`. */
  function CausalInLoopOrder(t: seq<real>, fir: seq<real>, c: nat, ch: nat): (r: seq<real>)
    requires Covers(t, fir, c) && ch < Channels
    ensures |r| == |fir|
  {
    seq(|fir|, m requires 0 <= m < |fir| => fir[|fir| - 1 - m] * At(t, c - |fir| + m, ch))
  }

  /** The anticausal taps: tap `j` on frame `c + 1 + j`. */
  function Anticausal(t: seq<real>, fir: seq<real>, c: nat, ch: nat): (r: seq<real>)
    requires Covers(t, fir, c) && ch < Channels
    ensures |r| == |fir|
  {
    seq(|fir|, j requires 0 <= j < |fir| => fir[j] * At(t, c + 1 + j, ch))
  }

  /** Tap `j` weighs the pair of frames `j + 1` before and after the centre. */
  function SymmetricTerms(t: seq<real>, fir: seq<real>, c: nat, ch: nat): (r: seq<real>)
    requires Covers(t, fir, c) && ch < Channels
    ensures |r| == |fir|
  {
    seq(|fir|, j requires 0 <= j < |fir| => fir[j] * (At(t, c - 1 - j, ch) + At(t, c + 1 + j, ch)))
  }

  /** The reference output: the symmetric FIR around frame `c`, with
      weight 1 on the centre frame. */
  function Filtered(t: seq<real>, fir: seq<real>, c: nat, ch: nat): real
    requires Covers(t, fir, c) && ch < Channels
  {
    Sum(SymmetricTerms(t, fir, c, ch)) + At(t, c, ch)
  }

  /** The causal taps, nearest frame first. */
  function Causal(t: seq<real>, fir: seq<real>, c: nat, ch: nat): (r: seq<real>)
    requires Covers(t, fir, c) && ch < Channels
    ensures |r| == |fir|
  {
    seq(|fir|, j requires 0 <= j < |fir| => fir[j] * At(t, c - 1 - j, ch))
  }

  /** The engine visits the causal taps farthest frame first. */
  lemma CausalLoopOrderReversed(t: seq<real>, fir: seq<real>, c: nat, ch: nat)
    requires Covers(t, fir, c) && ch < Channels
    ensures CausalInLoopOrder(t, fir, c, ch) == Reverse(Causal(t, fir, c, ch))
  {
    var n := |fir|;
    var loop, causal := CausalInLoopOrder(t, fir, c, ch), Causal(t, fir, c, ch);
    var rev := Reverse(causal);
    forall m | 0 <= m < n
      ensures loop[m] == rev[m]
    {
      var j := n - 1 - m;
      assert c - 1 - j == c - n + m;
      assert rev[m] == causal[j];
      assert causal[j] == fir[j] * At(t, c - 1 - j, ch);
      assert loop[m] == fir[j] * At(t, c - n + m, ch);
    }
    assert loop == rev;
  }

  /** The engine's accumulation order computes the symmetric FIR. */
  lemma LoopOrderIsSymmetric(t: seq<real>, fir: seq<real>, c: nat, ch: nat)
    requires Covers(t, fir, c) && ch < Channels
    ensures Sum(CausalInLoopOrder(t, fir, c, ch)) + At(t, c, ch) + Sum(Anticausal(t, fir, c, ch))
            == Filtered(t, fir, c, ch)
  {
    CausalLoopOrderReversed(t, fir, c, ch);
    SumReverse(Causal(t, fir, c, ch));
    SumAdd(Causal(t, fir, c, ch), Anticausal(t, fir, c, ch), SymmetricTerms(t, fir, c, ch));
  }

  /** The innermost channel loop: every channel of frame `f` is added to
      its accumulator with weight `w`. */
  method AccumulateFrame(acc: seq<real>, w: real, t: seq<real>, f: nat) returns (acc': seq<real>)
    requires |acc| == Channels && (f + 1) * Channels <= |t|
    ensures |acc'| == Channels
    ensures forall k :: 0 <= k < Channels ==> acc'[k] == acc[k] + w * At(t, f, k)
  {
    acc' := acc;
    var ti := f * Channels;
    var ch := 0;
    while ch < Channels
      invariant 0 <= ch <= Channels
      invariant ti == f * Channels + ch
      invariant |acc'| == Channels
      invariant forall k :: 0 <= k < ch ==> acc'[k] == acc[k] + w * At(t, f, k)
      invariant forall k :: ch <= k < Channels ==> acc'[k] == acc[k]
    {
      acc' := acc'[ch := acc'[ch] + w * t[ti]];
      ti := ti + 1;
      ch := ch + 1;
    }
  }

  /** oim.h:429-434: the causal taps, from the last down to the first. */
  method CausalPass(t: seq<real>, fir: seq<real>, c: nat) returns (acc: seq<real>)
    requires Covers(t, fir, c)
    ensures |acc| == Channels
    ensures forall k :: 0 <= k < Channels ==> acc[k] == Sum(CausalInLoopOrder(t, fir, c, k))
  {
    var fsz := |fir|;
    acc := [0.0, 0.0];
    var j := fsz;
    while j > 0
      invariant 0 <= j <= fsz
      invariant |acc| == Channels
      invariant forall k :: 0 <= k < Channels ==> acc[k] == Sum(CausalInLoopOrder(t, fir, c, k)[..fsz - j])
    {
      j := j - 1;
      acc := AccumulateFrame(acc, fir[j], t, c - 1 - j);
      forall k | 0 <= k < Channels
        ensures acc[k] == Sum(CausalInLoopOrder(t, fir, c, k)[..fsz - j])
      {
        var terms := CausalInLoopOrder(t, fir, c, k);
        assert terms[..fsz - j][..fsz - 1 - j] == terms[..fsz - 1 - j];
        assert terms[fsz - 1 - j] == fir[j] * At(t, c - 1 - j, k);
      }
    }
    assert forall k :: 0 <= k < Channels ==> CausalInLoopOrder(t, fir, c, k)[..fsz] == CausalInLoopOrder(t, fir, c, k);
  }

  /** oim.h:440-445: the anticausal taps, from the first to the last. */
  method AnticausalPass(acc0: seq<real>, t: seq<real>, fir: seq<real>, c: nat) returns (acc: seq<real>)
    requires Covers(t, fir, c) && |acc0| == Channels
    ensures |acc| == Channels
    ensures forall k :: 0 <= k < Channels ==> acc[k] == acc0[k] + Sum(Anticausal(t, fir, c, k))
  {
    var fsz := |fir|;
    acc := acc0;
    var j := 0;
    while j < fsz
      invariant 0 <= j <= fsz
      invariant |acc| == Channels
      invariant forall k :: 0 <= k < Channels ==> acc[k] == acc0[k] + Sum(Anticausal(t, fir, c, k)[..j])
    {
      acc := AccumulateFrame(acc, fir[j], t, c + 1 + j);
      forall k | 0 <= k < Channels
        ensures acc[k] == acc0[k] + Sum(Anticausal(t, fir, c, k)[..j + 1])
      {
        var terms := Anticausal(t, fir, c, k);
        assert terms[..j + 1][..j] == terms[..j];
      }
      j := j + 1;
    }
    assert forall k :: 0 <= k < Channels ==> Anticausal(t, fir, c, k)[..fsz] == Anticausal(t, fir, c, k);
  }

  /** One output frame, all channels (oim.h:421-445): the causal taps, the
      centre frame with weight 1, then the anticausal taps. `base` is the
      first frame of the window (`ti_begin / Channels`). */
  method FilterFrame(t: seq<real>, fir: seq<real>, base: nat) returns (acc: seq<real>)
    requires Covers(t, fir, base + |fir|)
    ensures |acc| == Channels
    ensures forall ch :: 0 <= ch < Channels ==> acc[ch] == Filtered(t, fir, base + |fir|, ch)
  {
    var c := base + |fir|;
    acc := CausalPass(t, fir, c);
    acc := AccumulateFrame(acc, 1.0, t, c);
    acc := AnticausalPass(acc, t, fir, c);
    forall k | 0 <= k < Channels
      ensures acc[k] == Filtered(t, fir, c, k)
    {
      LoopOrderIsSymmetric(t, fir, c, k);
    }
  }

  /** Output frame `k` is centred on oversampled frame `k * R + |fir|`. */
  function Centre(k: nat, ratio: nat, fir: seq<real>): nat
  {
    k * ratio + |fir|
  }

  lemma MulMono(a: nat, b: nat, r: nat)
    requires a <= b
    ensures a * r <= b * r
  {
  }

  /** The buffer holds the windows of all `period` output frames. */
  predicate CoversPeriod(t: seq<real>, fir: seq<real>, ratio: nat, period: nat)
  {
    period == 0 || Covers(t, fir, Centre(period - 1, ratio, fir))
  }

  lemma CoversEach(t: seq<real>, fir: seq<real>, ratio: nat, period: nat, k: nat)
    requires CoversPeriod(t, fir, ratio, period) && k < period
    ensures Covers(t, fir, Centre(k, ratio, fir))
  {
    MulMono(k, period - 1, ratio);
  }

  /** Position of channel `ch` of output frame `k` in the interleaved output. */
  function Slot(k: nat, ch: nat): nat
  {
    k * Channels + ch
  }

  lemma SlotBelow(k: nat, ch: nat, n: nat)
    requires k < n && ch < Channels
    ensures Slot(k, ch) < n * Channels
  {
  }

  /** Output frame `k` of `out` holds, channel by channel, the symmetric
      FIR around `Centre(k)`. */
  predicate FrameHolds(out: seq<real>, t: seq<real>, fir: seq<real>, ratio: nat, k: nat)
  {
    && Covers(t, fir, Centre(k, ratio, fir))
    && forall ch :: 0 <= ch < Channels ==>
         Slot(k, ch) < |out| && out[Slot(k, ch)] == Filtered(t, fir, Centre(k, ratio, fir), ch)
  }

  /** The first `n` output frames of `out` hold their filtered values. */
  predicate DecimatedUpTo(out: seq<real>, t: seq<real>, fir: seq<real>, ratio: nat, n: nat)
  {
    && |out| >= n * Channels
    && forall k :: 0 <= k < n ==> FrameHolds(out, t, fir, ratio, k)
  }

  /** Appending the frame of output `k` extends the decimated prefix. */
  lemma DecimatedExtend(prev: seq<real>, frame: seq<real>, t: seq<real>, fir: seq<real>, ratio: nat, k: nat)
    requires |prev| == k * Channels && DecimatedUpTo(prev, t, fir, ratio, k)
    requires Covers(t, fir, Centre(k, ratio, fir)) && |frame| == Channels
    requires forall ch :: 0 <= ch < Channels ==> frame[ch] == Filtered(t, fir, Centre(k, ratio, fir), ch)
    ensures |prev + frame| == (k + 1) * Channels
    ensures DecimatedUpTo(prev + frame, t, fir, ratio, k + 1)
  {
    var out := prev + frame;
    assert (k + 1) * Channels == k * Channels + Channels;
    forall k' | 0 <= k' < k + 1
      ensures FrameHolds(out, t, fir, ratio, k')
    {
      if k' < k {
        assert FrameHolds(prev, t, fir, ratio, k');
        forall ch | 0 <= ch < Channels
          ensures Slot(k', ch) < |out| && out[Slot(k', ch)] == prev[Slot(k', ch)]
        {
          SlotBelow(k', ch, k);
        }
      } else {
        forall ch | 0 <= ch < Channels
          ensures Slot(k', ch) < |out| && out[Slot(k', ch)] == frame[ch]
        {
          assert Slot(k', ch) == |prev| + ch;
        }
      }
    }
  }

  /** The decimation loop of oim.h:421-447: output frame `k`, channel `ch`
      is the symmetric FIR around oversampled frame `k * R + |fir|`. */
  method Decimate(t: seq<real>, fir: seq<real>, ratio: nat, period: nat) returns (out: seq<real>)
    requires CoversPeriod(t, fir, ratio, period)
    ensures |out| == period * Channels
    ensures DecimatedUpTo(out, t, fir, ratio, period)
  {
    out := [];
    var k := 0;
    var base := 0;
    while k < period
      invariant 0 <= k <= period
      invariant base == k * ratio
      invariant |out| == k * Channels
      invariant DecimatedUpTo(out, t, fir, ratio, k)
    {
      CoversEach(t, fir, ratio, period, k);
      var frame := FilterFrame(t, fir, base);
      DecimatedExtend(out, frame, t, fir, ratio, k);
      out := out + frame;
      k := k + 1;
      base := base + ratio;
    }
    assert k == period;
  }

  /** oim.h:409-412: the history frames `[0, hist)` take the frames
      `[advance, advance + hist)` of the previous period; the rest of the
      buffer is untouched. */
  function ShiftHistory(t: seq<real>, hist: nat, advance: nat): (r: seq<real>)
    requires (advance + hist) * Channels <= |t|
    ensures |r| == |t|
    ensures forall f, ch :: 0 <= f < hist && 0 <= ch < Channels ==> At(r, f, ch) == At(t, advance + f, ch)
    ensures forall i :: hist * Channels <= i < |t| ==> r[i] == t[i]
  {
    t[advance * Channels .. (advance + hist) * Channels] + t[hist * Channels ..]
  }

  /** oim.h:414-419: the callback renders `block` right after the history. */
  function WriteBlock(t: seq<real>, hist: nat, block: seq<real>): (r: seq<real>)
    requires hist * Channels + |block| <= |t|
    ensures |r| == |t|
    ensures forall i :: 0 <= i < |block| ==> r[hist * Channels + i] == block[i]
    ensures forall i :: 0 <= i < |t| && !(hist * Channels <= i < hist * Channels + |block|) ==> r[i] == t[i]
  {
    t[..hist * Channels] + block + t[hist * Channels + |block|..]
  }

  /** The rate and frame count the callback is asked for (oim.h:414-416,
      461): the oversampled block spans the same time as one period. */
  function CallbackRequest(sampleRate: nat, periodSize: nat, ratio: nat): (r: (nat, nat))
    requires ratio >= 1
    ensures r.1 * sampleRate == r.0 * periodSize
    ensures r.0 == ratio * sampleRate && r.1 == ratio * periodSize
  {
    if ratio > 1 then (sampleRate * ratio, periodSize * ratio) else (sampleRate, periodSize)
  }

  /** The highest oversampled frame a period's decimation reads. */
  function HighestFrameRead(period: nat, ratio: nat, fsz: nat): nat
    requires period >= 1
  {
    (period - 1) * ratio + 2 * fsz
  }

  /** The frames holding data of this period: retained history plus the
      callback's block. */
  function FilledFrames(hist: nat, period: nat, ratio: nat): nat
  {
    hist + period * ratio
  }

  /** As written, the history holds `|fir|` frames, and the last output
      frame reads past the filled frames exactly when `|fir| >= R`, which
      is always the case for `|fir| = R * zero_crossings`. */
  lemma AsWrittenWindowOverreach(period: nat, ratio: nat, zeroCrossings: nat)
    requires period >= 1 && ratio >= 1
    ensures forall fsz: nat {:trigger FilledFrames(fsz, period, ratio)} ::
              HighestFrameRead(period, ratio, fsz) >= FilledFrames(fsz, period, ratio) <==> fsz >= ratio
    ensures zeroCrossings >= 1 ==>
              HighestFrameRead(period, ratio, ratio * zeroCrossings) >= FilledFrames(ratio * zeroCrossings, period, ratio)
  {
    assert (period - 1) * ratio == period * ratio - ratio;
    if zeroCrossings >= 1 {
      MulMono(1, zeroCrossings, ratio);
    }
  }

  /** With `2 * |fir|` history frames every window lies inside the filled
      frames. */
  lemma CorrectedWindowInside(period: nat, ratio: nat, fsz: nat, k: nat)
    requires k < period && ratio >= 1
    ensures Centre(k, ratio, Repeat(0.0, fsz)) >= fsz
    ensures HighestFrameRead(period, ratio, fsz) < FilledFrames(2 * fsz, period, ratio)
    ensures k * ratio + 2 * fsz <= HighestFrameRead(period, ratio, fsz)
  {
    MulMono(k, period - 1, ratio);
    assert (period - 1) * ratio == period * ratio - ratio;
  }

  /** Pointwise sum of two buffers. */
  function Add(a: seq<real>, b: seq<real>): (r: seq<real>)
    requires |a| == |b|
    ensures |r| == |a| && forall i :: 0 <= i < |a| ==> r[i] == a[i] + b[i]
  {
    seq(|a|, i requires 0 <= i < |a| => a[i] + b[i])
  }

  /** A buffer scaled by `k`. */
  function Scale(k: real, a: seq<real>): (r: seq<real>)
    ensures |r| == |a| && forall i :: 0 <= i < |a| ==> r[i] == k * a[i]
  {
    seq(|a|, i requires 0 <= i < |a| => k * a[i])
  }

  /** The filter is additive. */
  lemma FilterAdditive(a: seq<real>, b: seq<real>, fir: seq<real>, c: nat, ch: nat)
    requires |a| == |b| && Covers(a, fir, c) && ch < Channels
    ensures Filtered(Add(a, b), fir, c, ch) == Filtered(a, fir, c, ch) + Filtered(b, fir, c, ch)
  {
    var ta := SymmetricTerms(a, fir, c, ch);
    var tb := SymmetricTerms(b, fir, c, ch);
    var tc := SymmetricTerms(Add(a, b), fir, c, ch);
    forall j | 0 <= j < |fir|
      ensures tc[j] == ta[j] + tb[j]
    {
      assert tc[j] == fir[j] * ((At(a, c - 1 - j, ch) + At(b, c - 1 - j, ch)) + (At(a, c + 1 + j, ch) + At(b, c + 1 + j, ch)));
    }
    SumAdd(ta, tb, tc);
  }

  lemma MulDistrib(w: real, k: real, x: real, y: real)
    ensures w * (k * x + k * y) == k * (w * (x + y))
  {
  }

  /** Scaling the buffer scales each symmetric term. */
  lemma TermScale(k: real, a: seq<real>, fir: seq<real>, c: nat, ch: nat, j: nat)
    requires Covers(a, fir, c) && ch < Channels && j < |fir|
    ensures SymmetricTerms(Scale(k, a), fir, c, ch)[j] == k * SymmetricTerms(a, fir, c, ch)[j]
  {
    var x, y := At(a, c - 1 - j, ch), At(a, c + 1 + j, ch);
    assert At(Scale(k, a), c - 1 - j, ch) == k * x;
    assert At(Scale(k, a), c + 1 + j, ch) == k * y;
    MulDistrib(fir[j], k, x, y);
  }

  /** The filter is homogeneous. */
  lemma FilterHomogeneous(k: real, a: seq<real>, fir: seq<real>, c: nat, ch: nat)
    requires Covers(a, fir, c) && ch < Channels
    ensures Filtered(Scale(k, a), fir, c, ch) == k * Filtered(a, fir, c, ch)
  {
    var ta := SymmetricTerms(a, fir, c, ch);
    var tc := SymmetricTerms(Scale(k, a), fir, c, ch);
    forall j | 0 <= j < |fir|
      ensures tc[j] == k * ta[j]
    {
      TermScale(k, a, fir, c, ch, j);
    }
    SumScale(k, ta, tc);
  }

  /** A silent buffer filters to silence: the filter adds no offset. */
  lemma SilenceInSilenceOut(t: seq<real>, fir: seq<real>, c: nat, ch: nat)
    requires Covers(t, fir, c) && ch < Channels
    requires forall i :: 0 <= i < |t| ==> t[i] == 0.0
    ensures Filtered(t, fir, c, ch) == 0.0
  {
    FilterHomogeneous(0.0, t, fir, c, ch);
    assert Scale(0.0, t) == t;
  }

  /** Changing the sample of frame `c + 1 + j` by `d` changes the output
      centred on `c` by `fir[j] * d`. */
  lemma FilterImpulse(t: seq<real>, fir: seq<real>, c: nat, ch: nat, j: nat, d: real)
    requires Covers(t, fir, c) && ch < Channels && j < |fir|
    ensures var t' := t[Slot(c + 1 + j, ch) := t[Slot(c + 1 + j, ch)] + d];
            Filtered(t', fir, c, ch) == Filtered(t, fir, c, ch) + fir[j] * d
  {
    var t' := t[Slot(c + 1 + j, ch) := t[Slot(c + 1 + j, ch)] + d];
    var ta := SymmetricTerms(t, fir, c, ch);
    var tb := SymmetricTerms(t', fir, c, ch);
    forall i | 0 <= i < |fir|
      ensures tb[i] == ta[j := ta[j] + fir[j] * d][i]
    {
      assert At(t', c - 1 - i, ch) == At(t, c - 1 - i, ch);
      if i != j {
        assert At(t', c + 1 + i, ch) == At(t, c + 1 + i, ch);
      }
    }
    assert tb == ta[j := ta[j] + fir[j] * d];
    SumBump(ta, j, fir[j] * d);
    assert At(t', c, ch) == At(t, c, ch);
  }

  /** The output centred on `c` depends only on the frames of its window. */
  lemma FilterLocal(t: seq<real>, u: seq<real>, fir: seq<real>, c: nat, ch: nat)
    requires Covers(t, fir, c) && Covers(u, fir, c) && ch < Channels
    requires forall f :: c - |fir| <= f <= c + |fir| ==> At(t, f, ch) == At(u, f, ch)
    ensures Filtered(t, fir, c, ch) == Filtered(u, fir, c, ch)
  {
    var ta := SymmetricTerms(t, fir, c, ch);
    var tb := SymmetricTerms(u, fir, c, ch);
    forall i | 0 <= i < |fir|
      ensures ta[i] == tb[i]
    {
      assert At(t, c - 1 - i, ch) == At(u, c - 1 - i, ch);
      assert At(t, c + 1 + i, ch) == At(u, c + 1 + i, ch);
    }
    assert ta == tb;
  }

  /** As written (history of `|fir|` frames), the last output frame of a
      period depends on a frame the period never filled: any nonzero tap
      `j >= R - 1` weighs such a frame. */
  lemma AsWrittenReadsUnfilled(t: seq<real>, fir: seq<real>, ratio: nat, period: nat, j: nat, d: real)
    requires ratio >= 1 && period >= 1
    requires CoversPeriod(t, fir, ratio, period)
    requires ratio - 1 <= j < |fir| && fir[j] != 0.0 && d != 0.0
    ensures var c := Centre(period - 1, ratio, fir);
            var t' := t[Slot(c + 1 + j, 0) := t[Slot(c + 1 + j, 0)] + d];
            && c + 1 + j >= FilledFrames(|fir|, period, ratio)
            && Filtered(t', fir, c, 0) != Filtered(t, fir, c, 0)
  {
    var c := Centre(period - 1, ratio, fir);
    assert (period - 1) * ratio == period * ratio - ratio;
    FilterImpulse(t, fir, c, 0, j, d);
  }

  /** With `2 * |fir|` history frames, every output frame of a period depends
      only on the filled frames: two buffers that agree there give the same
      output. */
  lemma CorrectedReadsOnlyFilled(t: seq<real>, u: seq<real>, fir: seq<real>, ratio: nat, period: nat, k: nat, ch: nat)
    requires ratio >= 1 && k < period && ch < Channels
    requires CoversPeriod(t, fir, ratio, period) && |u| == |t|
    requires forall i :: 0 <= i < FilledFrames(2 * |fir|, period, ratio) * Channels && i < |t| ==> t[i] == u[i]
    ensures Covers(t, fir, Centre(k, ratio, fir)) && Covers(u, fir, Centre(k, ratio, fir))
    ensures Filtered(t, fir, Centre(k, ratio, fir), ch) == Filtered(u, fir, Centre(k, ratio, fir), ch)
  {
    CoversEach(t, fir, ratio, period, k);
    var c := Centre(k, ratio, fir);
    CorrectedWindowInside(period, ratio, |fir|, k);
    forall f | c - |fir| <= f <= c + |fir|
      ensures At(t, f, ch) == At(u, f, ch)
    {
      assert f < FilledFrames(2 * |fir|, period, ratio);
      MulMono(f + 1, FilledFrames(2 * |fir|, period, ratio), Channels);
    }
    FilterLocal(t, u, fir, c, ch);
  }

  /** One oversampled period (oim.h:409-447) with `hist` retained frames:
      shift the history, let the callback's `block` follow it, decimate. */
  method OversamplePeriod(t: seq<real>, fir: seq<real>, ratio: nat, period: nat, hist: nat, block: seq<real>)
    returns (t': seq<real>, out: seq<real>)
    requires |block| == period * ratio * Channels
    requires (period * ratio + hist) * Channels <= |t|
    requires CoversPeriod(t, fir, ratio, period)
    ensures |t'| == |t| && |out| == period * Channels
    ensures forall f, ch :: 0 <= f < hist && 0 <= ch < Channels ==> At(t', f, ch) == At(t, period * ratio + f, ch)
    ensures forall i :: 0 <= i < |block| ==> t'[hist * Channels + i] == block[i]
    ensures forall i :: hist * Channels + |block| <= i < |t| ==> t'[i] == t[i]
    ensures DecimatedUpTo(out, t', fir, ratio, period)
  {
    var shifted := ShiftHistory(t, hist, period * ratio);
    t' := WriteBlock(shifted, hist, block);
    forall f, ch | 0 <= f < hist && 0 <= ch < Channels
      ensures At(t', f, ch) == At(t, period * ratio + f, ch)
    {
      MulMono(f + 1, hist, Channels);
    }
    out := Decimate(t', fir, ratio, period);
  }

  /** Without oversampling there are no taps (oim.h:224-226), and the
      filter hands every frame through unchanged, as the direct path of
      oim.h:460-461 does. */
  lemma RatioOneIsPassThrough(t: seq<real>, period: nat, k: nat, ch: nat)
    requires k < period && ch < Channels && period * Channels <= |t|
    ensures Covers(t, [], Centre(k, 1, []))
    ensures Filtered(t, [], Centre(k, 1, []), ch) == At(t, k, ch)
  {
    MulMono(k + 1, period, Channels);
    assert SymmetricTerms(t, [], k, ch) == [];
  }
}
