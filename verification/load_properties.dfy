/** What `load_audio` promises, stated over the whole pipeline: the slice
    notation against explicit arguments, the unit dispatch, the `.m4a`
    path, the rate check, the transpose and channel selection, and the
    agreement of the default shape with `audio_shape`. */
module LoadProperties {
  import opened Common
  import opened AudioTypes
  import opened PathNames
  import opened AudioSlice
  import opened Signals
  import opened Pcm
  import opened AudioLoad

  /** A path string without "::" that carries no slice notation. */
  predicate PlainPath(path: PathArg) {
    !(path.PathStr? && HasSeparator(path.s))
  }

  /** When the decoder fails, its error is the outcome of the later stages. */
  lemma DecodeFails(dec: Decoder, req: Request, p: LoadParams, w: Window)
    requires ResolveUnit(dec, req.path, p.unit, req.start, req.stop, p.frames) == Ok(w)
    requires ReadStage(dec, req, w, p).Err?
    ensures LoadRequest(dec, req, p) == Err(ReadStage(dec, req, w, p).error)
  {
  }

  /** When the decoder succeeds, the final stage decides the outcome. */
  lemma DecodeSucceeds(dec: Decoder, req: Request, p: LoadParams, w: Window, d: Decoded)
    requires ResolveUnit(dec, req.path, p.unit, req.start, req.stop, p.frames) == Ok(w)
    requires ReadStage(dec, req, w, p) == Ok(d)
    ensures LoadRequest(dec, req, p) == Finish(d.signal, d.rate, p.expectedSampleRate, req.channel, p.returnSampleRate)
  {
  }

  /** With the defaults, a file that is not `.m4a` is read whole by
      soundfile in float64, and the final stage only transposes. */
  lemma DefaultSoundfileRead(dec: Decoder, path: PathArg)
    requires PlainPath(path) && !PathIsM4a(path)
    ensures LoadAudioOutcome(dec, path, DefaultParams())
            == match ReadSoundfile(dec, path, Window(0.0, None, -1.0), Some(Float64), None, AllChannels)
               case Err(e) => Err(e)
               case Ok(d) => Finish(d.signal, d.rate, None, AllChannels, false)
  {
    var p := DefaultParams();
    var req := Request(path, 0.0, None, AllChannels);
    var w := Window(0.0, None, -1.0);
    PlainRequest(dec, path, p);
    assert ResolveUnit(dec, path, InSamples, 0.0, None, -1.0) == Ok(w);
    var d := ReadStage(dec, req, w, p);
    assert d == ReadSoundfile(dec, path, w, Some(Float64), None, AllChannels);
    if d.Ok? {
      DecodeSucceeds(dec, req, p, w, d.value);
    } else {
      DecodeFails(dec, req, p, w);
    }
  }

  /** With slice notation in the path, every one of unit, frames, start,
      stop and channel must be left at its default. */
  lemma SliceNotationExcludesArguments(dec: Decoder, s: string, p: LoadParams)
    requires HasSeparator(s)
    requires p.unit != InSamples || p.frames != -1.0 || p.start != 0.0 || p.stop.Some? || p.channel != AllChannels
    ensures LoadAudioOutcome(dec, PathStr(s), p).Err?
    ensures LoadAudioOutcome(dec, PathStr(s), p).error.AssertionError?
  {
  }

  /** Writing `path::[a:b,c]` is the same as passing start, stop and
      channel explicitly: the annotation's values replace the defaults and
      the rest of the call is unchanged. */
  lemma SliceNotationIsExplicitWindow(dec: Decoder, path: string, t: SliceSyntax, p: LoadParams)
    requires WellFormed(t) && !HasSeparator(path)
    requires p.unit == InSamples && p.frames == -1.0 && p.start == 0.0 && p.stop.None? && p.channel == AllChannels
    ensures var parsed := Interpret(path, t);
            LoadAudioOutcome(dec, PathStr(path + "::" + Render(t)), p)
            == LoadAudioOutcome(dec, PathStr(path),
                                p.(start := parsed.start as real, stop := OptionReal(parsed.stop), channel := parsed.channel))
  {
    var parsed := Interpret(path, t);
    var q := p.(start := parsed.start as real, stop := OptionReal(parsed.stop), channel := parsed.channel);
    SliceRequest(path, t, p);
    assert ApplySliceNotation(PathStr(path), q) == Ok(Request(PathStr(path), q.start, q.stop, q.channel));
    SameRequestSameOutcome(dec, PathStr(path + "::" + Render(t)), p, PathStr(path), q);
  }

  /** The request the slice notation stage makes of `path::[...]`. */
  lemma SliceRequest(path: string, t: SliceSyntax, p: LoadParams)
    requires WellFormed(t)
    requires p.unit == InSamples && p.frames == -1.0 && p.start == 0.0 && p.stop.None? && p.channel == AllChannels
    ensures var parsed := Interpret(path, t);
            ApplySliceNotation(PathStr(path + "::" + Render(t)), p)
            == Ok(Request(PathStr(path), parsed.start as real, OptionReal(parsed.stop), parsed.channel))
  {
    var s := path + "::" + Render(t);
    assert HasSeparator(s) by {
      RenderShape(t);
      LastSeparatorAfterPath(path, Render(t));
    }
    ParseAudioSliceRoundTrip(path, t);
    assert ApplySliceNotation(PathStr(s), p)
           == var parsed := Interpret(path, t);
              Ok(Request(PathStr(parsed.path), parsed.start as real, OptionReal(parsed.stop), parsed.channel));
  }

  /** The outcome depends on the path and on start, stop and channel only
      through the request the slice notation stage makes of them. */
  lemma SameRequestSameOutcome(dec: Decoder, path1: PathArg, p1: LoadParams, path2: PathArg, p2: LoadParams)
    requires ApplySliceNotation(path1, p1) == ApplySliceNotation(path2, p2)
    requires p1.(start := 0.0, stop := None, channel := AllChannels) == p2.(start := 0.0, stop := None, channel := AllChannels)
    ensures LoadAudioOutcome(dec, path1, p1) == LoadAudioOutcome(dec, path2, p2)
  {
    var a := ApplySliceNotation(path1, p1);
    if a.Ok? {
      RequestDecides(dec, a.value, p1, p2);
    }
  }

  /** After the slice notation stage, start, stop and channel are read
      from the request alone. */
  lemma RequestDecides(dec: Decoder, req: Request, p1: LoadParams, p2: LoadParams)
    requires p1.(start := 0.0, stop := None, channel := AllChannels) == p2.(start := 0.0, stop := None, channel := AllChannels)
    ensures LoadRequest(dec, req, p1) == LoadRequest(dec, req, p2)
  {
    assert p1.unit == p2.unit && p1.frames == p2.frames && p1.dtype == p2.dtype && p1.fillValue == p2.fillValue;
    assert p1.expectedSampleRate == p2.expectedSampleRate && p1.returnSampleRate == p2.returnSampleRate;
    var w := ResolveUnit(dec, req.path, p1.unit, req.start, req.stop, p1.frames);
    if w.Ok? {
      assert ReadStage(dec, req, w.value, p1) == ReadStage(dec, req, w.value, p2);
    }
  }

  /** Any unit other than 'samples' and 'seconds' is refused, and so is a
      negative stop in seconds. */
  lemma UnitDispatch(dec: Decoder, path: PathArg, p: LoadParams)
    ensures p.unit.OtherUnit? ==> LoadAudioOutcome(dec, path, p).Err?
    ensures p.unit.OtherUnit? && PlainPath(path) ==> LoadAudioOutcome(dec, path, p) == Err(ValueError(p.unit.name))
    ensures p.unit == InSeconds && PlainPath(path) && p.stop.Some? && p.stop.value < 0.0 ==>
              LoadAudioOutcome(dec, path, p) == Err(NotImplementedError("seconds"))
  {
  }

  /** `load_audio(path, start=0, frames=1, unit='seconds')` on a file of
      16 kHz asks the decoder for 16000 frames from the start. */
  lemma SecondsExample(dec: Decoder, path: PathArg, info: FileInfo)
    requires dec.open(path) == Ok(info) && info.sampleRate == 16000
    ensures ResolveUnit(dec, path, InSeconds, 0.0, None, 1.0) == Ok(Window(0.0, None, 16000.0))
  {
    var r := RoundHalfEven(16000.0);
    assert r == 16000;
    assert RoundHalfEven(0.0) == 0;
  }

  /** The `.m4a` branch does not look at `frames`, `dtype` or `fill_value`. */
  lemma M4aIgnoresFramesAndDType(dec: Decoder, s: string, p: LoadParams, frames: real, dtype: Option<DType>,
                                 fillValue: Option<real>)
    requires !HasSeparator(s) && Suffix(s) == ".m4a"
    ensures LoadAudioOutcome(dec, PathStr(s), p)
            == LoadAudioOutcome(dec, PathStr(s), p.(frames := frames, dtype := dtype, fillValue := fillValue))
  {
    var q := p.(frames := frames, dtype := dtype, fillValue := fillValue);
    var req := Request(PathStr(s), p.start, p.stop, p.channel);
    PlainRequest(dec, PathStr(s), p);
    PlainRequest(dec, PathStr(s), q);
    var wp := ResolveUnit(dec, PathStr(s), p.unit, p.start, p.stop, p.frames);
    var wq := ResolveUnit(dec, PathStr(s), q.unit, q.start, q.stop, q.frames);
    ResolveUnitFramesApart(dec, PathStr(s), p.unit, p.start, p.stop, p.frames, frames);
    if wp.Ok? {
      assert ReadStage(dec, req, wp.value, p) == ReadStage(dec, req, wq.value, q) by {
        assert PathIsM4a(req.path);
        ReadM4aWholeFile(dec, s, wp.value, wq.value);
      }
      var d := ReadStage(dec, req, wp.value, p);
      if d.Ok? {
        DecodeSucceeds(dec, req, p, wp.value, d.value);
        DecodeSucceeds(dec, req, q, wq.value, d.value);
      } else {
        DecodeFails(dec, req, p, wp.value);
        DecodeFails(dec, req, q, wq.value);
      }
    }
  }

  /** The `.m4a` branch looks only at the start and the stop of the window. */
  lemma ReadM4aWholeFile(dec: Decoder, s: string, w1: Window, w2: Window)
    requires w1.start == w2.start && w1.stop == w2.stop
    ensures ReadM4a(dec, s, w1) == ReadM4a(dec, s, w2)
  {
  }

  /** `frames` does not affect the start, stop or success of the unit
      dispatch. */
  lemma ResolveUnitFramesApart(dec: Decoder, path: PathArg, unit: Unit, start: real, stop: Option<real>,
                               frames1: real, frames2: real)
    ensures var w1 := ResolveUnit(dec, path, unit, start, stop, frames1);
            var w2 := ResolveUnit(dec, path, unit, start, stop, frames2);
            (w1.Ok? <==> w2.Ok?) && (w1.Err? ==> w1 == w2)
            && (w1.Ok? ==> w1.value.start == w2.value.start && w1.value.stop == w2.value.stop)
  {
  }

  /** With the defaults and any channel, an `.m4a` file is read whole by
      audioread and handed to the final stage. */
  lemma DefaultM4aRead(dec: Decoder, s: string, c: Channel)
    requires !HasSeparator(s) && Suffix(s) == ".m4a"
    ensures LoadAudioOutcome(dec, PathStr(s), DefaultParams().(channel := c))
            == match ReadM4a(dec, s, Window(0.0, None, -1.0))
               case Err(e) => Err(e)
               case Ok(d) => Finish(d.signal, d.rate, None, c, false)
  {
    var p := DefaultParams().(channel := c);
    var req := Request(PathStr(s), 0.0, None, c);
    var w := Window(0.0, None, -1.0);
    PlainRequest(dec, PathStr(s), p);
    assert ResolveUnit(dec, PathStr(s), InSamples, 0.0, None, -1.0) == Ok(w);
    var d := ReadStage(dec, req, w, p);
    assert d == ReadM4a(dec, s, w);
    if d.Ok? {
      DecodeSucceeds(dec, req, p, w, d.value);
    } else {
      DecodeFails(dec, req, p, w);
    }
  }

  /** audioread's stream of an `.m4a` file with buffers of even length
      gives their scaled samples, at the stream's rate. */
  lemma M4aWholeRead(dec: Decoder, s: string, stream: M4aStream)
    requires dec.m4a(s) == Ok(stream) && AllEven(stream.buffers) && stream.buffers != []
    ensures |Flatten(stream.buffers)| % 2 == 0
    ensures ReadM4a(dec, s, Window(0.0, None, -1.0))
            == Ok(Decoded(Signal1(Scaled(Samples(Flatten(stream.buffers)))), stream.sampleRate))
  {
    FlattenEven(stream.buffers);
  }

  /** An `.m4a` file read with the defaults gives the concatenation of all
      its buffers, each decoded as little-endian 16-bit samples and scaled
      by 2^-15. */
  lemma M4aDefaultSignal(dec: Decoder, s: string, stream: M4aStream)
    requires !HasSeparator(s) && Suffix(s) == ".m4a" && dec.m4a(s) == Ok(stream)
    requires AllEven(stream.buffers) && stream.buffers != []
    ensures |Flatten(stream.buffers)| % 2 == 0
    ensures LoadAudioOutcome(dec, PathStr(s), DefaultParams())
            == Ok(Plain(Signal1(Scaled(Samples(Flatten(stream.buffers))))))
  {
    M4aWholeRead(dec, s, stream);
    DefaultM4aRead(dec, s, AllChannels);
  }

  /** The signal of an `.m4a` file is 1-D, so selecting channels of it
      fails the dimension assertion. */
  lemma M4aNoChannelSelection(dec: Decoder, s: string, stream: M4aStream, c: Channel)
    requires !HasSeparator(s) && Suffix(s) == ".m4a" && dec.m4a(s) == Ok(stream)
    requires AllEven(stream.buffers) && stream.buffers != []
    requires c != AllChannels
    ensures LoadAudioOutcome(dec, PathStr(s), DefaultParams().(channel := c)) == Err(AssertionError(NotTwoDimensional))
  {
    M4aWholeRead(dec, s, stream);
    DefaultM4aRead(dec, s, c);
  }

  /** A `RuntimeError` of the decoder on a path string is re-raised naming
      the path for '.wav' files and the suffix for all others, unless
      python-magic cannot open the file, whose `OSError` escapes. */
  lemma DecoderFailureNamesPath(dec: Decoder, s: string, failure: DecoderFailure)
    requires !HasSeparator(s) && Suffix(s) != ".m4a"
    requires dec.open(PathStr(s)) == Err(failure) && failure.isRuntimeError
    ensures LoadAudioOutcome(dec, PathStr(s), DefaultParams())
            == Err(if !dec.magicOpens(s) then OSError(s)
                   else if Suffix(s) == ".wav" then CouldNotRead(s)
                   else WrongSuffix(Suffix(s), s))
  {
    var e := Enrich(dec, PathStr(s), failure);
    assert e == if !dec.magicOpens(s) then OSError(s)
                else if Suffix(s) == ".wav" then CouldNotRead(s)
                else WrongSuffix(Suffix(s), s);
    assert ReadSoundfile(dec, PathStr(s), Window(0.0, None, -1.0), Some(Float64), None, AllChannels) == Err(e);
    DefaultSoundfileRead(dec, PathStr(s));
  }

  /** The signal is the decoder's output, transposed and not resampled: a
      returned rate is the file's own, and an expected rate is met. */
  lemma NoResampling(dec: Decoder, path: PathArg, p: LoadParams)
    requires PlainPath(path) && !PathIsM4a(path) && p.unit == InSamples && p.dtype.Some?
    ensures var r := LoadAudioOutcome(dec, path, p);
            r.Ok? ==>
              && dec.open(path).Ok?
              && (p.expectedSampleRate.Some? ==> dec.open(path).value.sampleRate == p.expectedSampleRate.value)
              && (r.value.WithRate? ==> r.value.rate == dec.open(path).value.sampleRate)
              && var read := dec.read(path, Window(p.start, p.stop, p.frames), p.dtype.value, p.fillValue,
                                      p.channel != AllChannels);
                 read.Ok? && (p.channel == AllChannels ==> r.value.signal == Transpose(read.value))
  {
    var req := Request(path, p.start, p.stop, p.channel);
    var w := Window(p.start, p.stop, p.frames);
    PlainRequest(dec, path, p);
    assert ResolveUnit(dec, path, p.unit, p.start, p.stop, p.frames) == Ok(w);
    var d := ReadStage(dec, req, w, p);
    if d.Ok? {
      DecodeSucceeds(dec, req, p, w, d.value);
    } else {
      DecodeFails(dec, req, p, w);
    }
  }

  /** With a channel selected, the result is never empty. */
  lemma SelectionNotEmpty(dec: Decoder, path: PathArg, p: LoadParams)
    requires PlainPath(path) && p.channel != AllChannels
    ensures LoadAudioOutcome(dec, path, p).Ok? ==> Size(LoadAudioOutcome(dec, path, p).value.signal) > 0
  {
  }

  /** soundfile's layout of a file with `channels` channels and `frames`
      frames: one row per frame, one column per channel, and 1-D for a
      mono file unless 2-D output is asked for. */
  predicate SoundfileLayout(a: Array, channels: nat, frames: nat, always2d: bool) {
    if channels == 1 && !always2d then a.Signal1? && |a.samples| == frames
    else a.Signal2? && |a.rows| == frames && a.width == channels
  }

  /** After the transpose, channel `i` of a (frame, channel) matrix is a
      1-D signal of all frames; a slice keeps one row per channel it covers
      and a list one row per index, each as long as the file. */
  lemma ChannelShapes(m: Array, channels: nat, frames: nat, channel: Channel)
    requires SoundfileLayout(m, channels, frames, true) && channel != AllChannels
    ensures Transpose(m).Signal2?
    ensures channel.Index? && InRange(channel.i, channels) ==>
              var r := SelectChannel(Transpose(m), channel);
              && r.Ok? && Shape(r.value) == [frames]
              && forall f :: 0 <= f < frames ==> r.value.samples[f] == m.rows[f][PyIndex(channel.i, channels)]
    ensures channel.Slice? && StepOf(channel) != 0 ==>
              var r := SelectChannel(Transpose(m), channel);
              r.Ok? && Shape(r.value) == [|SliceRows(channel, channels)|, frames]
    ensures channel.Indices? && (forall k :: 0 <= k < |channel.ix| ==> InRange(channel.ix[k], channels)) ==>
              var r := SelectChannel(Transpose(m), channel);
              r.Ok? && Shape(r.value) == [|channel.ix|, frames]
  {
  }

  /** The multichannel examples: a file of 6 channels and 38520 frames
      gives (38520,) for `[:,0]` and (3, 38520) for the channels
      `[1, 3, 5]`. */
  lemma MultichannelExamples(m: Array, rate: nat)
    requires SoundfileLayout(m, 6, 38520, true)
    ensures Shape(Finish(m, rate, None, Index(0), false).value.signal) == [38520]
    ensures Shape(Finish(m, rate, None, Indices([1, 3, 5]), false).value.signal) == [3, 38520]
  {
    ChannelShapes(m, 6, 38520, Index(0));
    ChannelShapes(m, 6, 38520, Indices([1, 3, 5]));
  }

  /** With no rate to check, a slice of channels that picks at least one
      of them gives one row per picked channel, each as long as the file. */
  lemma FinishSliceShape(m: Array, channels: nat, frames: nat, rate: nat, channel: Channel)
    requires SoundfileLayout(m, channels, frames, true) && frames > 0
    requires channel.Slice? && StepOf(channel) != 0 && |SliceRows(channel, channels)| > 0
    ensures Shape(Finish(m, rate, None, channel, false).value.signal) == [|SliceRows(channel, channels)|, frames]
  {
    ChannelShapes(m, channels, frames, channel);
    var selected := SelectChannel(Transpose(m), channel);
    assert Size(selected.value) > 0 by {
      assert Shape(selected.value) == [|SliceRows(channel, channels)|, frames];
      PositiveProduct(|SliceRows(channel, channels)|, frames);
    }
  }

  lemma PositiveProduct(a: nat, b: nat)
    requires a > 0 && b > 0
    ensures a * b > 0
  {
  }

  /** The same file gives (2, 38520) for `[:,:2]` and `[:,2:4]`. */
  lemma MultichannelSliceExamples(m: Array, rate: nat)
    requires SoundfileLayout(m, 6, 38520, true)
    ensures Shape(Finish(m, rate, None, Slice(None, Some(2), None), false).value.signal) == [2, 38520]
    ensures Shape(Finish(m, rate, None, Slice(Some(2), Some(4), None), false).value.signal) == [2, 38520]
  {
    RangeUp(0, 2);
    RangeUp(2, 4);
    FinishSliceShape(m, 6, 38520, rate, Slice(None, Some(2), None));
    FinishSliceShape(m, 6, 38520, rate, Slice(Some(2), Some(4), None));
  }

  /** Read with the defaults, a file has the shape `audio_shape` reports:
      its length for a mono file, (channels, length) otherwise. */
  lemma DefaultShapeIsAudioShape(dec: Decoder, s: string, info: FileInfo, a: Array)
    requires !HasSeparator(s) && Suffix(s) != ".m4a"
    requires dec.open(PathStr(s)) == Ok(info)
    requires dec.read(PathStr(s), Window(0.0, None, -1.0), Float64, None, false) == Ok(a)
    requires SoundfileLayout(a, info.channels, info.frames, false)
    ensures LoadAudioOutcome(dec, PathStr(s), DefaultParams()).Ok?
    ensures Shape(LoadAudioOutcome(dec, PathStr(s), DefaultParams()).value.signal) == AudioShape(info.channels, info.frames)
  {
    DefaultSoundfileRead(dec, PathStr(s));
    assert ReadSoundfile(dec, PathStr(s), Window(0.0, None, -1.0), Some(Float64), None, AllChannels)
           == Ok(Decoded(a, info.sampleRate));
  }
}
