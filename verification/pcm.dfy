/** Raw sample data: little-endian signed 16-bit samples (numpy's `"<i2"`)
    read from byte buffers, the concatenation of decoded `.m4a` buffers,
    and the de-interleaving of multichannel frames in
    `read_from_byte_string`. */
module Pcm {
  import opened Common
  import opened AudioTypes
  import opened Signals

  const OddBuffer: string := "buffer size must be a multiple of element size"
  const NothingToConcatenate: string := "need at least one array to concatenate"
  const InhomogeneousShape: string := "setting an array element with a sequence. The requested array has an inhomogeneous shape"

  type Byte = x: int | 0 <= x < 256

  /** A count of channels: a wave header never announces fewer than one. */
  type ChannelCount = n: int | n >= 1 witness 1

  predicate IsInt16(v: int) {
    -32768 <= v < 32768
  }

  /** The sample stored in the two bytes `lo`, `hi` (two's complement,
      least significant byte first). */
  function Int16LE(lo: Byte, hi: Byte): (v: int)
    ensures IsInt16(v)
    ensures (v >= 0) == (hi < 128)
  {
    var u := lo + 256 * hi;
    if u >= 32768 then u - 65536 else u
  }

  /** The two bytes that store `v`, least significant first. */
  function Int16LEBytes(v: int): (b: seq<Byte>)
    requires IsInt16(v)
    ensures |b| == 2
  {
    var u := if v < 0 then v + 65536 else v;
    [u % 256, u / 256]
  }

  lemma Int16EncodeDecode(v: int)
    requires IsInt16(v)
    ensures Int16LE(Int16LEBytes(v)[0], Int16LEBytes(v)[1]) == v
  {
  }

  lemma Int16DecodeEncode(lo: Byte, hi: Byte)
    ensures Int16LEBytes(Int16LE(lo, hi)) == [lo, hi]
  {
  }

  /** `np.frombuffer(buf, "<i2")` on a buffer of even length. */
  function Samples(buf: seq<Byte>): (r: seq<int>)
    requires |buf| % 2 == 0
    ensures |r| == |buf| / 2
    ensures forall i :: 0 <= i < |r| ==> IsInt16(r[i])
  {
    seq(|buf| / 2, i requires 0 <= i < |buf| / 2 => Int16LE(buf[2 * i], buf[2 * i + 1]))
  }

  /** The bytes of a sequence of 16-bit samples, `a.astype("<i2").tobytes()`. */
  function Encode(v: seq<int>): (b: seq<Byte>)
    requires forall i :: 0 <= i < |v| ==> IsInt16(v[i])
    ensures |b| == 2 * |v|
  {
    if v == [] then [] else Int16LEBytes(v[0]) + Encode(v[1..])
  }

  lemma {:induction false} SamplesOfEncode(v: seq<int>)
    requires forall i :: 0 <= i < |v| ==> IsInt16(v[i])
    ensures Samples(Encode(v)) == v
  {
    if v != [] {
      var b, x, rest := Encode(v), Int16LEBytes(v[0]), Encode(v[1..]);
      assert b == x + rest;
      assert b[0] == x[0] && b[1] == x[1] && b[2..] == rest;
      SamplesOfEncode(v[1..]);
      SamplesTail(b);
      Int16EncodeDecode(v[0]);
      assert v == [v[0]] + v[1..];
    }
  }

  /** Reading the bytes of a buffer of even length back gives the buffer. */
  lemma {:induction false} EncodeOfSamples(buf: seq<Byte>)
    requires |buf| % 2 == 0
    ensures Encode(Samples(buf)) == buf
  {
    if buf != [] {
      var v := Samples(buf);
      SamplesTail(buf);
      EncodeOfSamples(buf[2..]);
      Int16DecodeEncode(buf[0], buf[1]);
      assert buf == [buf[0], buf[1]] + buf[2..];
    }
  }

  /** The first sample of a non-empty buffer is stored in its first two
      bytes, and the rest are the samples of the remaining bytes. */
  lemma SamplesTail(buf: seq<Byte>)
    requires |buf| % 2 == 0 && buf != []
    ensures Samples(buf) == [Int16LE(buf[0], buf[1])] + Samples(buf[2..])
  {
    var v := Samples(buf);
    assert v[1..] == Samples(buf[2..]);
  }

  /** Decoding two buffers one after the other gives the samples of their
      concatenation. */
  lemma SamplesAppend(a: seq<Byte>, b: seq<Byte>)
    requires |a| % 2 == 0 && |b| % 2 == 0
    ensures Samples(a + b) == Samples(a) + Samples(b)
  {
    var ab := a + b;
    forall i | 0 <= i < |a| / 2
      ensures Samples(ab)[i] == Samples(a)[i]
    {
      assert ab[2 * i] == a[2 * i] && ab[2 * i + 1] == a[2 * i + 1];
    }
    forall i | |a| / 2 <= i < |ab| / 2
      ensures Samples(ab)[i] == Samples(b)[i - |a| / 2]
    {
      var k := i - |a| / 2;
      assert ab[2 * i] == b[2 * k] && ab[2 * i + 1] == b[2 * k + 1];
    }
  }

  /** `np.concatenate(parts)` on one-dimensional parts. */
  function Flatten<T>(parts: seq<seq<T>>): seq<T> {
    if parts == [] then [] else Flatten(parts[..|parts| - 1]) + parts[|parts| - 1]
  }

  /** `x.astype(np.float64) * (1. / float(1 << 15))`: samples mapped to
      [-1, 1). The factor 2^-15 is exact in binary floating point. */
  function Scaled(x: seq<int>): (r: seq<real>)
    ensures |r| == |x|
    ensures forall i :: 0 <= i < |x| && IsInt16(x[i]) ==> -1.0 <= r[i] < 1.0
  {
    seq(|x|, i requires 0 <= i < |x| => x[i] as real * (1.0 / 32768.0))
  }

  predicate AllEven(buffers: seq<seq<Byte>>) {
    forall k :: 0 <= k < |buffers| ==> |buffers[k]| % 2 == 0
  }

  /** The signal of the `.m4a` branch: every buffer is decoded and scaled,
      and the parts are concatenated. A buffer of odd length makes
      `np.frombuffer` raise; no buffer at all makes `np.concatenate` raise. */
  function M4aSignal(buffers: seq<seq<Byte>>): (r: Result<seq<real>, LoadError>)
    ensures !AllEven(buffers) ==> r.Err?
    ensures AllEven(buffers) && buffers != [] ==> r.Ok?
    ensures r.Ok? ==> |r.value| == |Flatten(buffers)| / 2
  {
    if !AllEven(buffers) then Err(ValueError(OddBuffer))
    else if buffers == [] then Err(ValueError(NothingToConcatenate))
    else
      FlattenEven(buffers);
      Ok(Scaled(Samples(Flatten(buffers))))
  }

  lemma {:induction false} FlattenEven(buffers: seq<seq<Byte>>)
    requires AllEven(buffers)
    ensures |Flatten(buffers)| % 2 == 0
  {
    if buffers != [] {
      var init := buffers[..|buffers| - 1];
      assert AllEven(init) by {
        forall k | 0 <= k < |init| ensures |init[k]| % 2 == 0 {
          assert init[k] == buffers[k];
        }
      }
      FlattenEven(init);
      assert |buffers[|buffers| - 1]| % 2 == 0;
    }
  }

  lemma ScaledAppend(x: seq<int>, y: seq<int>)
    ensures Scaled(x + y) == Scaled(x) + Scaled(y)
  {
  }

  /** Decoding and scaling the buffers one by one and concatenating the
      parts gives the scaled samples of all bytes together. */
  lemma {:induction false} FlattenOfDecoded(buffers: seq<seq<Byte>>)
    requires AllEven(buffers)
    ensures |Flatten(buffers)| % 2 == 0
    ensures Flatten(seq(|buffers|, k requires 0 <= k < |buffers| => Scaled(Samples(buffers[k]))))
            == Scaled(Samples(Flatten(buffers)))
  {
    FlattenEven(buffers);
    if buffers != [] {
      var n := |buffers|;
      var init := buffers[..n - 1];
      assert AllEven(init) by {
        forall k | 0 <= k < |init| ensures |init[k]| % 2 == 0 {
          assert init[k] == buffers[k];
        }
      }
      FlattenOfDecoded(init);
      var parts := seq(n, k requires 0 <= k < n => Scaled(Samples(buffers[k])));
      assert parts[..n - 1] == seq(n - 1, k requires 0 <= k < n - 1 => Scaled(Samples(init[k])));
      SamplesAppend(Flatten(init), buffers[n - 1]);
      ScaledAppend(Samples(Flatten(init)), Samples(buffers[n - 1]));
    }
  }

  /** The loop of the `.m4a` branch of `load_audio`: each buffer the
      decoder yields is decoded, scaled and appended to `data`, and the
      parts are concatenated at the end. */
  method ReadM4aBuffers(buffers: seq<seq<Byte>>) returns (r: Result<seq<real>, LoadError>)
    ensures r == M4aSignal(buffers)
    ensures r.Ok? ==> AllEven(buffers) && |Flatten(buffers)| % 2 == 0
                      && r.value == Scaled(Samples(Flatten(buffers)))
  {
    var data: seq<seq<real>> := [];
    var i := 0;
    while i < |buffers|
      invariant 0 <= i <= |buffers|
      invariant AllEven(buffers[..i])
      invariant data == seq(i, k requires 0 <= k < i => Scaled(Samples(buffers[k])))
    {
      if |buffers[i]| % 2 != 0 {
        return Err(ValueError(OddBuffer));
      }
      data := data + [Scaled(Samples(buffers[i]))];
      i := i + 1;
    }
    assert buffers[..i] == buffers;
    if data == [] {
      return Err(ValueError(NothingToConcatenate));
    }
    FlattenOfDecoded(buffers);
    r := Ok(Flatten(data));
  }

  /** `s[ch::n]`: the elements at positions ch, ch + n, ch + 2n, ... */
  function Strided<T>(s: seq<T>, ch: nat, n: ChannelCount): seq<T>
    decreases |s| - ch
  {
    if ch >= |s| then [] else [s[ch]] + Strided(s, ch + n, n)
  }

  /** Element `k` of `s[ch::n]` is `s[ch + k * n]`. */
  lemma {:induction false} StridedAt<T>(s: seq<T>, ch: nat, n: ChannelCount, k: nat)
    requires k < |Strided(s, ch, n)|
    ensures ch + k * n < |s| && Strided(s, ch, n)[k] == s[ch + k * n]
    decreases k
  {
    if k > 0 {
      StridedAt(s, ch + n, n, k - 1);
      assert ch + n + (k - 1) * n == ch + k * n;
    }
  }

  /** `s[ch::n]` ends with the last position below `|s|`: one more step
      would leave `s`. */
  lemma {:induction false} StridedLength<T>(s: seq<T>, ch: nat, n: ChannelCount)
    ensures |s| <= ch + |Strided(s, ch, n)| * n
    ensures |Strided(s, ch, n)| > 0 ==> ch + (|Strided(s, ch, n)| - 1) * n < |s|
    decreases |s| - ch
  {
    if ch < |s| {
      StridedLength(s, ch + n, n);
      var m := |Strided(s, ch + n, n)|;
      assert ch + n + m * n == ch + (m + 1) * n;
      if m > 0 {
        assert ch + n + (m - 1) * n == ch + m * n;
      }
    }
  }

  /** The per-channel rows of interleaved samples: row `ch` holds the
      samples at positions ch, ch + n, ch + 2n, ... */
  function DeInterleave<T>(s: seq<T>, n: ChannelCount): (rows: seq<seq<T>>)
    ensures |rows| == n
  {
    seq(n, ch requires 0 <= ch < n => Strided(s, ch, n))
  }

  /** Interleaved frames of `n` samples laid one after the other. */
  function Interleave<T>(frames: seq<seq<T>>): seq<T> {
    if frames == [] then [] else frames[0] + Interleave(frames[1..])
  }

  lemma {:induction false} StridedShift<T>(a: seq<T>, b: seq<T>, ch: nat, n: ChannelCount)
    requires |a| == n
    ensures Strided(a + b, ch + n, n) == Strided(b, ch, n)
    decreases |b| - ch
  {
    if ch < |b| {
      StridedShift(a, b, ch + n, n);
      assert (a + b)[ch + n] == b[ch];
    }
  }

  /** De-interleaving frames of `n` samples gives channel `ch` the `ch`-th
      sample of every frame, in frame order. */
  lemma {:induction false} StridedOfFrames<T>(frames: seq<seq<T>>, ch: nat, n: ChannelCount)
    requires ch < n
    requires forall f :: 0 <= f < |frames| ==> |frames[f]| == n
    ensures Strided(Interleave(frames), ch, n) == seq(|frames|, f requires 0 <= f < |frames| => frames[f][ch])
  {
    if frames != [] {
      StridedOfFrames(frames[1..], ch, n);
      StridedShift(frames[0], Interleave(frames[1..]), ch, n);
    }
  }

  lemma DeInterleaveFrames<T>(frames: seq<seq<T>>, n: ChannelCount)
    requires forall f :: 0 <= f < |frames| ==> |frames[f]| == n
    ensures forall ch :: 0 <= ch < n ==> |DeInterleave(Interleave(frames), n)[ch]| == |frames|
    ensures forall ch, f :: 0 <= ch < n && 0 <= f < |frames| ==> DeInterleave(Interleave(frames), n)[ch][f] == frames[f][ch]
  {
    forall ch | 0 <= ch < n
      ensures DeInterleave(Interleave(frames), n)[ch] == seq(|frames|, f requires 0 <= f < |frames| => frames[f][ch])
    {
      StridedOfFrames(frames, ch, n);
    }
  }

  /** The rows of `read_from_byte_string` before the division by the
      maximum: the frame data is read as 16-bit samples and split into one
      row per channel. Rows of different lengths cannot form an array. */
  function ReadFromByteString(channels: ChannelCount, frameData: seq<Byte>): (r: Result<Array, LoadError>)
    ensures r.Ok? <==> |frameData| % 2 == 0 && (|frameData| / 2) % channels == 0
    ensures r.Ok? ==> r.value.Signal2? && |r.value.rows| == channels
                      && r.value.width * channels == |frameData| / 2
  {
    if |frameData| % 2 != 0 then
      Err(ValueError(OddBuffer))
    else if |Samples(frameData)| % channels != 0 then
      Err(ValueError(InhomogeneousShape))
    else
      var samples := Samples(frameData);
      var signal: Array := Signal2(ChannelRows(samples, channels), |samples| / channels);
      Ok(signal)
  }

  /** One row per channel, each as long as the signal has frames. */
  function ChannelRows(samples: seq<int>, n: ChannelCount): (rows: seq<seq<real>>)
    requires |samples| % n == 0
    ensures |rows| == n
    ensures forall ch :: 0 <= ch < n ==> |rows[ch]| == |samples| / n
    ensures (|samples| / n) * n == |samples|
  {
    FrameWidths(samples, n);
    var rows := DeInterleave(samples, n);
    seq(n, ch requires 0 <= ch < n => AsReals(rows[ch]))
  }

  /** Row `ch` of `read_from_byte_string` holds the samples at positions
      ch, ch + n, ch + 2n, ... of the frame data. */
  lemma ReadFromByteStringAt(channels: ChannelCount, frameData: seq<Byte>, ch: nat, k: nat)
    requires ReadFromByteString(channels, frameData).Ok?
    requires ch < channels && k < ReadFromByteString(channels, frameData).value.width
    ensures |frameData| % 2 == 0 && ch + k * channels < |frameData| / 2
    ensures ReadFromByteString(channels, frameData).value.rows[ch][k]
            == Samples(frameData)[ch + k * channels] as real
  {
    var samples := Samples(frameData);
    FrameWidths(samples, channels);
    StridedAt(samples, ch, channels, k);
  }

  function AsReals(x: seq<int>): (r: seq<real>)
    ensures |r| == |x| && forall i :: 0 <= i < |x| ==> r[i] == x[i] as real
  {
    seq(|x|, i requires 0 <= i < |x| => x[i] as real)
  }

  lemma FrameWidths(s: seq<int>, n: ChannelCount)
    requires |s| % n == 0
    ensures forall ch :: 0 <= ch < n ==> |Strided(s, ch, n)| == |s| / n
  {
    forall ch | 0 <= ch < n ensures |Strided(s, ch, n)| == |s| / n {
      StridedLength(s, ch, n);
      var m := |Strided(s, ch, n)|;
      var q := |s| / n;
      assert |s| == q * n;
      if m > 0 {
        MulMonotone(m - 1, q, n);
        assert (m + 1) * n == m * n + n;
        MulMonotone(q, m + 1, n);
      } else if q > 0 {
        MulMonotone(q, 1, n);
      }
    }
  }

  lemma MulMonotone(a: int, b: int, n: int)
    requires n > 0 && a * n < b * n
    ensures a < b
  {
  }
}
