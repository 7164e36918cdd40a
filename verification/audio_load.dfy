/** `load_audio` of paderbox/io/audioread.py: the slice notation in the
    path, the unit dispatch, the `.m4a` and soundfile decode paths with
    the decoder as an oracle, the sample-rate check, the transpose to
    (channel, sample) and the channel selection; and `audio_shape`. */
module AudioLoad {
  import opened Common
  import opened AudioTypes
  import opened PathNames
  import opened AudioSlice
  import opened Signals
  import opened Pcm

  const PartialLoading: string := "audioread does not support partial loading of audio files"
  const RateMismatch: string := "Requested sampling rate differs from the rate of the audio file"
  const NotTwoDimensional: string := "signal.ndim == 2"
  const EmptySignal: string := "Returned signal would be empty"
  const ZeroStep: string := "slice step cannot be zero"

  /** What `path` can be: a path string (a `pathlib.Path` is converted to
      one first) or anything else soundfile accepts (an open file, a file
      descriptor), which the model only tells apart by an identity. */
  datatype PathArg = PathStr(s: string) | FileObject(id: nat)

  /** The `unit` argument: 'samples', 'seconds' or any other text. */
  datatype Unit = InSamples | InSeconds | OtherUnit(name: string)

  function UnitName(u: Unit): string {
    match u
    case InSamples => "samples"
    case InSeconds => "seconds"
    case OtherUnit(name) => name
  }

  datatype DType = Int16 | Int32 | Float32 | Float64

  /** The keyword arguments of `load_audio`. Numbers are reals because
      `start`, `stop` and `frames` may be given in seconds. */
  datatype LoadParams = LoadParams(
    frames: real,
    start: real,
    stop: Option<real>,
    channel: Channel,
    dtype: Option<DType>,
    fillValue: Option<real>,
    expectedSampleRate: Option<nat>,
    unit: Unit,
    returnSampleRate: bool)

  /** The defaults of `load_audio`'s signature. */
  function DefaultParams(): LoadParams {
    LoadParams(-1.0, 0.0, None, AllChannels, Some(Float64), None, None, InSamples, false)
  }

  /** The window handed to soundfile's `_prepare_read` and `read`. */
  datatype Window = Window(start: real, stop: Option<real>, frames: real)

  /** What an open sound file reports. */
  datatype FileInfo = FileInfo(sampleRate: nat, subtype: string, channels: nat, frames: nat)

  /** What audioread yields for an `.m4a` file: its rate and its buffers. */
  datatype M4aStream = M4aStream(sampleRate: nat, buffers: seq<seq<Byte>>)

  /** The audio libraries as an oracle: opening a file with soundfile,
      reading a window of it (with `dtype`, `fill_value`, `always_2d`),
      opening an `.m4a` file with audioread, and whether python-magic's
      `from_file` can open a file to describe it. */
  datatype Decoder = Decoder(
    open: PathArg -> Result<FileInfo, DecoderFailure>,
    read: (PathArg, Window, DType, Option<real>, bool) -> Result<Array, DecoderFailure>,
    m4a: string -> Result<M4aStream, DecoderFailure>,
    magicOpens: string -> bool)

  /** What `load_audio` returns: the signal, or the signal and the rate. */
  datatype Loaded = Plain(signal: Array) | WithRate(signal: Array, rate: nat)

  /** The path, start, stop and channel after the slice notation. */
  datatype Request = Request(path: PathArg, start: real, stop: Option<real>, channel: Channel)

  /** The decoded signal in soundfile's (sample, channel) layout, and the
      file's sample rate. */
  datatype Decoded = Decoded(signal: Array, rate: nat)

  // ---------------------------------------------------------------------
  // The stages of load_audio
  // ---------------------------------------------------------------------

  /** Lines 182-187: a path string holding "::" carries its own window and
      channel; unit and frames must then be at their defaults, and start,
      stop and channel are checked by the parser. */
  function ApplySliceNotation(path: PathArg, p: LoadParams): (r: Result<Request, LoadError>)
    ensures !(path.PathStr? && HasSeparator(path.s)) ==> r == Ok(Request(path, p.start, p.stop, p.channel))
    ensures path.PathStr? && HasSeparator(path.s) && (p.unit != InSamples || p.frames != -1.0) ==>
              r.Err? && r.error.AssertionError?
    ensures r.Ok? && path.PathStr? && HasSeparator(path.s) ==>
              r.value.path.PathStr? && r.value.start >= 0.0
              && (r.value.stop.Some? ==> r.value.stop.value >= 0.0)
  {
    if path.PathStr? && HasSeparator(path.s) then
      if p.unit != InSamples then Err(AssertionError(UnitName(p.unit)))
      else if p.frames != -1.0 then Err(AssertionError("frames"))
      else
        var parsed :- ParseAudioSlice(path.s, p.start, p.stop, p.channel);
        Ok(Request(PathStr(parsed.path), parsed.start as real, OptionReal(parsed.stop), parsed.channel))
    else Ok(Request(path, p.start, p.stop, p.channel))
  }

  function OptionReal(x: Option<nat>): (r: Option<real>)
    ensures r.Some? <==> x.Some?
    ensures r.Some? ==> r.value == x.value as real
  {
    if x.Some? then Some(x.value as real) else None
  }

  /** `int(np.round(x))`: the nearest integer, ties to the even one. */
  function RoundHalfEven(x: real): (r: int)
    ensures x - 0.5 <= r as real <= x + 0.5
    ensures (r as real == x - 0.5 || r as real == x + 0.5) ==> r % 2 == 0
  {
    var f := x.Floor;
    var d := x - f as real;
    if d < 0.5 then f
    else if d > 0.5 then f + 1
    else if f % 2 == 0 then f
    else f + 1
  }

  /** `r` is at most half a unit away from `x`. */
  predicate WithinHalf(r: real, x: real) {
    x - 0.5 <= r <= x + 0.5
  }

  /** `int(np.round(x * samplerate))`: a duration in seconds as a whole
      number of samples. */
  function InSamplesOf(x: real, rate: real): (r: real)
    ensures WithinHalf(r, x * rate)
  {
    RoundHalfEven(x * rate) as real
  }

  /** Lines 189-204: 'samples' passes start, stop and frames through;
      'seconds' multiplies them by the file's rate and rounds: start
      always, frames only when positive and stop only when positive (a
      negative stop is not supported); any other unit is an error. */
  function ResolveUnit(dec: Decoder, path: PathArg, unit: Unit, start: real, stop: Option<real>, frames: real)
    : (r: Result<Window, LoadError>)
    ensures unit == InSamples ==> r == Ok(Window(start, stop, frames))
    ensures unit.OtherUnit? ==> r == Err(ValueError(unit.name))
    ensures unit == InSeconds && stop.Some? && stop.value < 0.0 ==> r.Err? && r.error.NotImplementedError?
    ensures unit == InSeconds && r.Ok? ==> dec.open(path).Ok?
  {
    match unit
    case InSamples => Ok(Window(start, stop, frames))
    case InSeconds =>
      if stop.Some? && stop.value < 0.0 then Err(NotImplementedError("seconds"))
      else
        (match dec.open(path)
         case Err(failure) => Err(DecoderError(failure))
         case Ok(info) =>
           var rate := info.sampleRate as real;
           Ok(Window(InSamplesOf(start, rate),
                     if stop.Some? && stop.value > 0.0 then Some(InSamplesOf(stop.value, rate)) else stop,
                     if frames > 0.0 then InSamplesOf(frames, rate) else frames)))
    case OtherUnit(name) => Err(ValueError(name))
  }

  /** In seconds, a file that opens gives a window in samples at the
      file's rate: start, a positive stop and a positive frame count are
      each rounded to within half a sample of the exact product; a missing
      stop, a stop of 0 and a frame count that is not positive are kept. */
  lemma SecondsWindow(dec: Decoder, path: PathArg, start: real, stop: Option<real>, frames: real)
    requires dec.open(path).Ok? && !(stop.Some? && stop.value < 0.0)
    ensures var r := ResolveUnit(dec, path, InSeconds, start, stop, frames);
            var rate := dec.open(path).value.sampleRate as real;
            && r.Ok?
            && WithinHalf(r.value.start, start * rate)
            && (frames <= 0.0 ==> r.value.frames == frames)
            && (frames > 0.0 ==> WithinHalf(r.value.frames, frames * rate))
            && (stop.None? ==> r.value.stop.None?)
            && (stop.Some? && stop.value == 0.0 ==> r.value.stop == Some(0.0))
            && (stop.Some? && stop.value > 0.0 ==>
                  r.value.stop.Some? && WithinHalf(r.value.stop.value, stop.value * rate))
  {
  }

  /** The `dtype` soundfile reads a file in when `dtype=None`. */
  function SubtypeDType(subtype: string): (r: Result<DType, LoadError>)
    ensures r.Ok? <==> subtype in {"PCM_16", "FLOAT", "DOUBLE"}
    ensures r.Err? ==> r == Err(KeyError(subtype))
    ensures subtype == "PCM_16" ==> r == Ok(Int16)
    ensures subtype == "FLOAT" ==> r == Ok(Float32)
    ensures subtype == "DOUBLE" ==> r == Ok(Float64)
  {
    if subtype == "PCM_16" then Ok(Int16)
    else if subtype == "FLOAT" then Ok(Float32)
    else if subtype == "DOUBLE" then Ok(Float64)
    else Err(KeyError(subtype))
  }

  /** Lines 241-258: a `RuntimeError` of the decoder on a path string is
      replaced by one naming the path (for '.wav' files) or its suffix
      (for all others); anything else propagates unchanged. Building the
      new message first asks python-magic to describe the file, and when
      it cannot open the file its own `OSError` escapes instead. */
  function Enrich(dec: Decoder, path: PathArg, failure: DecoderFailure): (e: LoadError)
    ensures !failure.isRuntimeError || path.FileObject? ==> e == DecoderError(failure)
    ensures failure.isRuntimeError && path.PathStr? && !dec.magicOpens(path.s) ==> e == OSError(path.s)
    ensures failure.isRuntimeError && path.PathStr? && dec.magicOpens(path.s) ==>
              if Suffix(path.s) == ".wav" then e == CouldNotRead(path.s) else e == WrongSuffix(Suffix(path.s), path.s)
  {
    if failure.isRuntimeError && path.PathStr? then
      if !dec.magicOpens(path.s) then OSError(path.s)
      else if Suffix(path.s) == ".wav" then CouldNotRead(path.s)
      else WrongSuffix(Suffix(path.s), path.s)
    else DecoderError(failure)
  }

  predicate PathIsM4a(path: PathArg) {
    path.PathStr? && Suffix(path.s) == ".m4a"
  }

  /** Lines 207-220: audioread reads an `.m4a` file whole (a window other
      than the whole file is refused; `frames`, `dtype` and `fill_value`
      play no part); the signal is one-dimensional. */
  function ReadM4a(dec: Decoder, path: string, w: Window): (r: Result<Decoded, LoadError>)
    ensures w.start != 0.0 || w.stop.Some? ==> r.Err? && r.error.AssertionError?
    ensures r.Ok? ==> dec.m4a(path).Ok? && r.value.signal.Signal1?
                      && r.value.rate == dec.m4a(path).value.sampleRate
  {
    if !(w.start == 0.0 && w.stop.None?) then
      Err(AssertionError(PartialLoading))
    else
      match dec.m4a(path)
      case Err(failure) => Err(Enrich(dec, PathStr(path), failure))
      case Ok(stream) =>
        var samples :- M4aSignal(stream.buffers);
        Ok(Decoded(Signal1(samples), stream.sampleRate))
  }

  /** Lines 222-240: soundfile reads the requested window, in the dtype
      derived from the file's subtype when none is given, as a 2-D array
      whenever a channel is selected. */
  function ReadSoundfile(dec: Decoder, path: PathArg, w: Window, dtype: Option<DType>, fillValue: Option<real>,
                         channel: Channel): (r: Result<Decoded, LoadError>)
    ensures r.Ok? ==> dec.open(path).Ok? && r.value.rate == dec.open(path).value.sampleRate
    ensures dec.open(path).Ok? && dtype.None? && SubtypeDType(dec.open(path).value.subtype).Err? ==>
              r == Err(KeyError(dec.open(path).value.subtype))
  {
    match dec.open(path)
    case Err(failure) => Err(Enrich(dec, path, failure))
    case Ok(info) =>
      var dt :- if dtype.Some? then Ok(dtype.value) else SubtypeDType(info.subtype);
      match dec.read(path, w, dt, fillValue, channel != AllChannels)
      case Err(failure) => Err(Enrich(dec, path, failure))
      case Ok(data) => Ok(Decoded(data, info.sampleRate))
  }

  /** The `.m4a` branch with its loop over the buffers as statements. */
  method ReadM4aFile(dec: Decoder, path: string, w: Window) returns (r: Result<Decoded, LoadError>)
    ensures r == ReadM4a(dec, path, w)
  {
    if !(w.start == 0.0 && w.stop.None?) {
      return Err(AssertionError(PartialLoading));
    }
    var stream := dec.m4a(path);
    if stream.Err? {
      return Err(Enrich(dec, PathStr(path), stream.error));
    }
    var samples := ReadM4aBuffers(stream.value.buffers);
    if samples.Err? {
      return Err(samples.error);
    }
    r := Ok(Decoded(Signal1(samples.value), stream.value.sampleRate));
  }

  /** numpy's clamping of a slice bound over `n` rows (CPython's
      `slice.indices`): an open bound is the start or the end in the
      direction of `step`; a negative bound counts from the end; a bound
      past either end is pulled back to just outside it, which is `-1` on
      the low side when stepping down. */
  function SliceBound(b: Option<int>, isStart: bool, step: int, n: nat): (r: int)
    requires step != 0
    ensures step > 0 ==> 0 <= r <= n
    ensures step < 0 ==> -1 <= r < n
    ensures b.Some? && 0 <= b.value < n ==> r == b.value
    ensures b.Some? && -(n as int) <= b.value < 0 ==> r == b.value + n
    ensures b.Some? && b.value >= n ==> r == if step > 0 then n else n - 1
    ensures b.Some? && b.value < -(n as int) ==> r == if step > 0 then 0 else -1
    ensures b.None? && isStart ==> r == if step > 0 then 0 else n - 1
    ensures b.None? && !isStart ==> r == if step > 0 then n else -1
  {
    var lower, upper := if step < 0 then -1 else 0, if step < 0 then n - 1 else n;
    if b.None? then (if isStart == (step < 0) then upper else lower)
    else if b.value < 0 then (if b.value + n < lower then lower else b.value + n)
    else if b.value > upper then upper
    else b.value
  }

  /** `range(start, stop, step)`: from `start` in steps of `step` for as
      long as `stop` is not reached. */
  function Range(start: int, stop: int, step: int): (r: seq<int>)
    requires step != 0
    ensures r == [] <==> (step > 0 && start >= stop) || (step < 0 && start <= stop)
    ensures step > 0 ==> forall k :: 0 <= k < |r| ==> start <= r[k] < stop
    ensures step < 0 ==> forall k :: 0 <= k < |r| ==> stop < r[k] <= start
    decreases if step > 0 then stop - start else start - stop
  {
    if (step > 0 && start < stop) || (step < 0 && start > stop) then
      var rest := Range(start + step, stop, step);
      assert forall k :: 1 <= k < |rest| + 1 ==> ([start] + rest)[k] == rest[k - 1];
      [start] + rest
    else []
  }

  /** `range` starts at `start`, moves by `step` from one element to the
      next, and its last element is less than one step away from `stop`. */
  lemma {:induction false} RangeSteps(start: int, stop: int, step: int)
    requires step != 0
    ensures var r := Range(start, stop, step);
            && (r != [] ==> r[0] == start)
            && (forall k :: 0 <= k < |r| - 1 ==> r[k + 1] == r[k] + step)
            && (r != [] && step > 0 ==> r[|r| - 1] + step >= stop)
            && (r != [] && step < 0 ==> r[|r| - 1] + step <= stop)
    decreases if step > 0 then stop - start else start - stop
  {
    var r := Range(start, stop, step);
    if r != [] {
      var rest := Range(start + step, stop, step);
      RangeSteps(start + step, stop, step);
      assert r == [start] + rest;
      assert forall k :: 1 <= k < |r| ==> r[k] == rest[k - 1];
    }
  }

  /** The step of a slice; an open step is 1. */
  function StepOf(channel: Channel): int
    requires channel.Slice?
  {
    if channel.step.None? then 1 else channel.step.value
  }

  /** The rows a slice with a non-zero step picks out of `n`, in order. */
  function SliceRows(channel: Channel, n: nat): (ix: seq<int>)
    requires channel.Slice? && StepOf(channel) != 0
    ensures forall k :: 0 <= k < |ix| ==> 0 <= ix[k] < n
  {
    var step := StepOf(channel);
    Range(SliceBound(channel.lo, true, step, n), SliceBound(channel.hi, false, step, n), step)
  }

  /** The first index of `ix` outside the rows, if there is one. */
  function FirstOutOfRange(ix: seq<int>, n: nat): (r: Option<int>)
    ensures r.None? <==> forall k :: 0 <= k < |ix| ==> InRange(ix[k], n)
    ensures r.Some? ==> exists k :: 0 <= k < |ix| && ix[k] == r.value && !InRange(r.value, n)
                                    && forall j :: 0 <= j < k ==> InRange(ix[j], n)
  {
    if ix == [] then None
    else if !InRange(ix[0], n) then Some(ix[0])
    else
      var rest := FirstOutOfRange(ix[1..], n);
      if rest.Some? then
        assert forall j :: 1 <= j < |ix| ==> ix[1..][j - 1] == ix[j];
        rest
      else
        assert forall j :: 1 <= j < |ix| ==> ix[1..][j - 1] == ix[j];
        None
  }

  /** `signal[channel, ]` on a (channel, sample) matrix: an index picks one
      row and drops the axis, a slice keeps the rows it covers, a list
      picks the rows it names in its order. */
  function SelectChannel(m: Array, channel: Channel): (r: Result<Array, LoadError>)
    requires m.Signal2? && channel != AllChannels
    ensures channel.Index? ==> (r.Ok? <==> InRange(channel.i, |m.rows|))
    ensures channel.Index? && r.Ok? ==> r.value == Signal1(m.rows[PyIndex(channel.i, |m.rows|)])
    ensures channel.Slice? ==> (r.Ok? <==> StepOf(channel) != 0)
    ensures channel.Slice? && r.Err? ==> r.error == ValueError(ZeroStep)
    ensures channel.Slice? && r.Ok? ==>
              var ix := SliceRows(channel, |m.rows|);
              r.value.Signal2? && r.value.width == m.width && |r.value.rows| == |ix|
              && forall k :: 0 <= k < |ix| ==> r.value.rows[k] == m.rows[ix[k]]
    ensures channel.Indices? ==> (r.Ok? <==> forall k :: 0 <= k < |channel.ix| ==> InRange(channel.ix[k], |m.rows|))
    ensures channel.Indices? && r.Ok? ==>
              r.value.Signal2? && r.value.width == m.width && |r.value.rows| == |channel.ix|
              && forall k :: 0 <= k < |channel.ix| ==> r.value.rows[k] == m.rows[PyIndex(channel.ix[k], |m.rows|)]
    ensures r.Err? && !channel.Slice? ==> r.error.IndexError?
  {
    var n := |m.rows|;
    match channel
    case Index(i) =>
      if InRange(i, n) then Ok(Signal1(m.rows[PyIndex(i, n)])) else Err(IndexError(i))
    case Slice(_, _, _) =>
      if StepOf(channel) == 0 then Err(ValueError(ZeroStep))
      else
        var ix := SliceRows(channel, n);
        var picked: Array := Signal2(seq(|ix|, k requires 0 <= k < |ix| => m.rows[ix[k]]), m.width);
        Ok(picked)
    case Indices(ix) =>
      match FirstOutOfRange(ix, n)
      case Some(bad) => Err(IndexError(bad))
      case None =>
        var picked: Array := Signal2(seq(|ix|, k requires 0 <= k < |ix| => m.rows[PyIndex(ix[k], n)]), m.width);
        Ok(picked)
  }

  /** Counting up by one from `a` to `b` visits `a, a + 1, ..., b - 1`. */
  lemma {:induction false} RangeUp(a: int, b: int)
    ensures |Range(a, b, 1)| == Max(b - a, 0)
    ensures forall k :: 0 <= k < |Range(a, b, 1)| ==> Range(a, b, 1)[k] == a + k
    decreases b - a
  {
    if a < b {
      RangeUp(a + 1, b);
      assert Range(a, b, 1) == [a] + Range(a + 1, b, 1);
    }
  }

  /** Counting down by one from `a` to `b` visits `a, a - 1, ..., b + 1`. */
  lemma {:induction false} RangeDown(a: int, b: int)
    ensures |Range(a, b, -1)| == Max(a - b, 0)
    ensures forall k :: 0 <= k < |Range(a, b, -1)| ==> Range(a, b, -1)[k] == a - k
    decreases a - b
  {
    if a > b {
      RangeDown(a - 1, b);
      assert Range(a, b, -1) == [a] + Range(a - 1, b, -1);
    }
  }

  /** A slice of channels with step 1 keeps the rows from its clamped lower
      bound up to its clamped upper bound, in order; crossed bounds keep
      none. */
  lemma SelectSlice(m: Array, lo: Option<int>, hi: Option<int>, step: Option<int>)
    requires m.Signal2? && (step.None? || step == Some(1))
    ensures var r := SelectChannel(m, Slice(lo, hi, step));
            var a, b := SliceBound(lo, true, 1, |m.rows|), SliceBound(hi, false, 1, |m.rows|);
            && r.Ok? && r.value.Signal2?
            && |r.value.rows| == Max(b - a, 0) && a + |r.value.rows| <= |m.rows|
            && forall k :: 0 <= k < |r.value.rows| ==> r.value.rows[k] == m.rows[a + k]
  {
    var n := |m.rows|;
    RangeUp(SliceBound(lo, true, 1, n), SliceBound(hi, false, 1, n));
  }

  /** `signal[::-1, ]` keeps every row in reverse order. */
  lemma SelectReversed(m: Array)
    requires m.Signal2?
    ensures var r := SelectChannel(m, Slice(None, None, Some(-1)));
            && r.Ok? && r.value.Signal2? && |r.value.rows| == |m.rows|
            && forall k :: 0 <= k < |m.rows| ==> r.value.rows[k] == m.rows[|m.rows| - 1 - k]
  {
    RangeDown(|m.rows| - 1, -1);
  }

  /** Lines 260-282: the rate check (never a resampling), the transpose
      from (sample, channel) to (channel, sample), the channel selection
      with its checks, and the shape of the return value. */
  function Finish(signal: Array, rate: nat, expectedRate: Option<nat>, channel: Channel, returnRate: bool)
    : (r: Result<Loaded, LoadError>)
    ensures expectedRate.Some? && expectedRate.value != rate ==> r.Err? && r.error.ValueError?
    ensures r.Ok? ==> (returnRate <==> r.value.WithRate?) && (r.value.WithRate? ==> r.value.rate == rate)
    ensures r.Ok? && channel != AllChannels ==> Size(r.value.signal) > 0
    ensures channel == AllChannels && (expectedRate.None? || expectedRate.value == rate) ==>
              r.Ok? && r.value.signal == Transpose(signal)
    ensures channel != AllChannels && (expectedRate.None? || expectedRate.value == rate) && signal.Signal1? ==>
              r == Err(AssertionError(NotTwoDimensional))
    ensures channel != AllChannels && (expectedRate.None? || expectedRate.value == rate) && signal.Signal2? ==>
              var selected := SelectChannel(Transpose(signal), channel);
              && (selected.Err? ==> r == Err(selected.error))
              && (selected.Ok? && Size(selected.value) == 0 ==> r == Err(ValueError(EmptySignal)))
              && (selected.Ok? && Size(selected.value) > 0 ==> r.Ok? && r.value.signal == selected.value)
  {
    if expectedRate.Some? && expectedRate.value != rate then
      Err(ValueError(RateMismatch))
    else
      var t := Transpose(signal);
      var selected :- if channel == AllChannels then Ok(t)
                      else if t.Signal1? then Err(AssertionError(NotTwoDimensional))
                      else SelectChannel(t, channel);
      if channel != AllChannels && Size(selected) == 0 then Err(ValueError(EmptySignal))
      else if returnRate then Ok(WithRate(selected, rate))
      else Ok(Plain(selected))
  }

  /** `load_audio(path, **p)` with the decoder `dec`, stage by stage. */
  function LoadAudioOutcome(dec: Decoder, path: PathArg, p: LoadParams): (r: Result<Loaded, LoadError>)
    ensures r.Ok? && r.value.WithRate? && p.expectedSampleRate.Some? ==> r.value.rate == p.expectedSampleRate.value
  {
    var req :- ApplySliceNotation(path, p);
    LoadRequest(dec, req, p)
  }

  /** Lines 188-282, once the slice notation is resolved: the unit
      conversion, the decoder and the final stage. */
  function LoadRequest(dec: Decoder, req: Request, p: LoadParams): (r: Result<Loaded, LoadError>)
    ensures r.Ok? && r.value.WithRate? && p.expectedSampleRate.Some? ==> r.value.rate == p.expectedSampleRate.value
  {
    var w :- ResolveUnit(dec, req.path, p.unit, req.start, req.stop, p.frames);
    var decoded :- ReadStage(dec, req, w, p);
    Finish(decoded.signal, decoded.rate, p.expectedSampleRate, req.channel, p.returnSampleRate)
  }

  /** Lines 206-240: the `.m4a` branch or the soundfile branch. */
  function ReadStage(dec: Decoder, req: Request, w: Window, p: LoadParams): Result<Decoded, LoadError> {
    if PathIsM4a(req.path) then ReadM4a(dec, req.path.s, w)
    else ReadSoundfile(dec, req.path, w, p.dtype, p.fillValue, req.channel)
  }

  /** A path without slice notation goes to the later stages unchanged. */
  lemma PlainRequest(dec: Decoder, path: PathArg, p: LoadParams)
    requires !(path.PathStr? && HasSeparator(path.s))
    ensures LoadAudioOutcome(dec, path, p) == LoadRequest(dec, Request(path, p.start, p.stop, p.channel), p)
  {
  }

  /** `load_audio`: the path, the window and the signal are rebound stage
      by stage. */
  method LoadAudio(dec: Decoder, path: PathArg, p: LoadParams) returns (r: Result<Loaded, LoadError>)
    ensures r == LoadAudioOutcome(dec, path, p)
  {
    var request := ApplySliceNotation(path, p);
    if request.Err? {
      return Err(request.error);
    }
    var req := request.value;
    var window := ResolveUnit(dec, req.path, p.unit, req.start, req.stop, p.frames);
    if window.Err? {
      return Err(window.error);
    }
    var decoded;
    if PathIsM4a(req.path) {
      decoded := ReadM4aFile(dec, req.path.s, window.value);
    } else {
      decoded := ReadSoundfile(dec, req.path, window.value, p.dtype, p.fillValue, req.channel);
    }
    if decoded.Err? {
      return Err(decoded.error);
    }
    r := Finish(decoded.value.signal, decoded.value.rate, p.expectedSampleRate, req.channel, p.returnSampleRate);
  }

  /** `audio_shape(path)` of a file with `channels` channels and `frames`
      frames: a mono file reports its length, any other file the pair
      (channels, length). */
  function AudioShape(channels: nat, frames: nat): (r: seq<nat>)
    ensures |r| == 1 <==> channels == 1
    ensures 1 <= |r| <= 2 && r[|r| - 1] == frames
    ensures |r| == 2 ==> r[0] == channels
  {
    if channels == 1 then [frames] else [channels, frames]
  }
}
