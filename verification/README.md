# paderbox audio loading and plot bookkeeping, modelled in Dafny

This project models three parts of paderbox.

- **Audio loading** (`paderbox/io/audioread.py`), covering `load_audio` and what it is built from:
  - the `path::[start:stop,channel]` slice notation and its parser `_parse_audio_slice`;
  - the conversion from seconds to samples;
  - the `.m4a` branch, which concatenates little-endian 16-bit buffers scaled by 2^-15;
  - the soundfile branch, including the subtype-to-dtype table and the error messages for undecodable files;
  - the sample-rate check, the transpose to (channel, sample) and the channel selection;
  - `recursive_load_audio` over nested lists and dicts, with numpy's stack-or-keep-the-list decision;
  - the channel de-interleave of `read_from_byte_string`;
  - the shape `audio_shape` reports.
- **Subplot bookkeeping** (`paderbox/visualization/context_manager.py`):
  - the `_AxesHandler` class, with its rows that only grow and its counter that only rises, and the integer and `(row, col)` indexing behind `new`, `last` and `handler[item]`;
  - the argument checks of `LatexContextManager.__init__`, and the name of the file its export writes.
- **Facet-grid layout** (`nt/visualization/module_facet_grid.py`): the entry assertions of `facet_grid`, the broadcasting of its signal, function and keyword-argument lists, the row count, and which axes are drawn on and which are switched off.

How the model is built:

- The audio decoders (soundfile and audioread) are a `Decoder` value whose fields are functions. The model is proved for every such decoder.
- Pure parts of the source are functions. The `.m4a` buffer loop, the `_AxesHandler` object and the `facet_grid` loops are methods. Each method is proved equal to a specification function, and the properties are lemmas about that function.
- `LoadAudio` is a method that runs the stages in order. It is proved equal to `LoadAudioOutcome`.

Files, one module each:
- `common.dfy`: `Option` and `Result`, string prefix and suffix tests, and Python sequence indexing.
- `path_names.dfy`: `basename`, `dirname`, `join` and `splitext` from `os.path`, plus `PurePath.suffix`.
- `audio_types.dfy`: channel selectors and the errors of the loader.
- `audio_slice.dfy`: the slice grammar and `_parse_audio_slice`.
- `signals.dfy`: 1-D and 2-D arrays and `.T`.
- `pcm.dfy`: 16-bit little-endian samples, the `.m4a` buffer loop and the de-interleave.
- `audio_load.dfy`: `load_audio` and `audio_shape`.
- `load_properties.dfy`: properties of the whole `load_audio` pipeline.
- `recursive_load.dfy`: `recursive_load_audio`.
- `context_manager.dfy`: `_AxesHandler` and `LatexContextManager`.
- `facet_grid.dfy`: `facet_grid`.

Two places where the written text and the code differ; the model follows the code in both:
- The `load_audio` docstring promises a (frames x channels) array. The code transposes it to (channels x frames) (paderbox/io/audioread.py:111 against 270).
- In seconds, the code converts `stop` only when it is greater than 0. A `stop` of exactly 0 is passed on unconverted, which gives the same value.

## Model

| member | source | states |
|---|---|---|
| AudioSlice.Match | paderbox/io/audioread.py:286 | A string the slice pattern accepts is a well-formed annotation that renders back to exactly that string. |
| AudioSlice.MatchComplete | paderbox/io/audioread.py:286 | Every well-formed annotation, once rendered, is accepted by the pattern and recovered unchanged. |
| AudioSlice.ParseAudioSlice | paderbox/io/audioread.py:289-343 | Any start, stop or channel other than the defaults raises AssertionError. On success, the input path is the returned path followed by "::" and a well-formed annotation. |
| AudioSlice.ParseAudioSliceOutcome | paderbox/io/audioread.py:326-335 | The path is split at the last "::". A space in the annotation raises AssertionError naming the annotation. An annotation the pattern rejects raises ValueError naming the whole path. A matched annotation yields its interpreted values. |
| AudioSlice.ParseAudioSliceRoundTrip | paderbox/io/audioread.py:326-343 | `p + "::" + annotation` parses back to `p` and the annotation's start, stop and channel, for every path `p`, including paths that contain "::". |
| AudioSlice.ChannelCases | paderbox/io/audioread.py:337-343 | A single channel index gives that integer. A channel range with at least one bound gives a slice of those bounds. Anything else selects all channels. A missing start becomes 0. |
| AudioSlice.DigitsValueExamples | paderbox/io/audioread.py:330-333 | `int()` of "0", "2" and "16000". |
| AudioSlice.ParseAudioSliceIndexExample | paderbox/io/audioread.py:316-317 | `'file.wav::[:16000,0]'` parses to `('file.wav', 0, 16000, 0)`. |
| AudioSlice.ParseAudioSliceRangeExample | paderbox/io/audioread.py:318-319 | `'file.wav::[:16000,:2]'` parses to `('file.wav', 0, 16000, slice(None, 2))`. |
| Signals.Transpose | paderbox/io/audioread.py:270 | `.T` leaves a 1-D signal unchanged. It swaps the shape of a matrix and mirrors its elements. |
| Signals.TransposeTwice | paderbox/io/audioread.py:270 | Transposing twice gives the array back. |
| Pcm.Int16LE | paderbox/io/audioread.py:218 | A `<i2` sample decoded from two bytes lies in the 16-bit range. It is negative exactly when the high byte is at least 128. |
| Pcm.Int16EncodeDecode | paderbox/io/audioread.py:218 | Encoding a 16-bit value and decoding it again gives the value back. |
| Pcm.Int16DecodeEncode | paderbox/io/audioread.py:218 | Decoding two bytes and encoding the result again gives the bytes back. |
| Pcm.SamplesOfEncode | paderbox/io/audioread.py:218 | Decoding the encoding of a sequence of 16-bit samples gives the samples back. |
| Pcm.EncodeOfSamples | paderbox/io/audioread.py:218 | Encoding the samples decoded from an even-length buffer gives the buffer back. |
| Pcm.SamplesAppend | paderbox/io/audioread.py:217-220 | Decoding the concatenation of two even-length buffers is the concatenation of their decodings. |
| Pcm.Scaled | paderbox/io/audioread.py:216-219 | Every 16-bit sample scaled by 2^-15 lies in [-1, 1). |
| Pcm.M4aSignal | paderbox/io/audioread.py:213-220 | An odd-length buffer raises ValueError. No buffers at all raises ValueError. Otherwise the result has one sample per two bytes. |
| Pcm.FlattenOfDecoded | paderbox/io/audioread.py:217-220 | Concatenating the decoded and scaled buffers equals decoding and scaling their concatenated bytes. |
| Pcm.ReadM4aBuffers | paderbox/io/audioread.py:213-220 | The buffer loop computes `M4aSignal`. On success every buffer had even length, and the signal is the scaled decoding of all bytes in order. |
| Pcm.StridedAt | paderbox/io/audioread.py:645-646 | Element `k` of `interleaved[ch::channels]` is `interleaved[ch + k * channels]`. |
| Pcm.StridedLength | paderbox/io/audioread.py:645-646 | `interleaved[ch::channels]` takes every `channels`-th sample up to the end and no further. |
| Pcm.DeInterleave | paderbox/io/audioread.py:645-646 | The comprehension makes one row per channel. |
| Pcm.DeInterleaveFrames | paderbox/io/audioread.py:645-646 | De-interleaving interleaved frames gives their transpose: row `ch`, column `f` is channel `ch` of frame `f`. |
| Pcm.FrameWidths | paderbox/io/audioread.py:645-646 | When the sample count is a multiple of the channel count, every channel row is equally long. |
| Pcm.ReadFromByteString | paderbox/io/audioread.py:634-648 | The result is Ok exactly when the frame bytes hold whole samples and whole frames. It then has one row per channel. |
| Pcm.ReadFromByteStringAt | paderbox/io/audioread.py:642-646 | Row `ch`, column `k` of the result is sample `ch + k * channels` of the frame data. |
| AudioLoad.ApplySliceNotation | paderbox/io/audioread.py:180-186 | A path without "::" passes start, stop and channel through unchanged. With "::", a unit other than samples or `frames != -1` raises AssertionError. Otherwise the path is split and the parsed values are used. |
| AudioLoad.RoundHalfEven | paderbox/io/audioread.py:196-200 | `np.round` returns an integer within 0.5 of its argument, and an even one on a tie. |
| AudioLoad.InSamplesOf | paderbox/io/audioread.py:198-202 | A duration in seconds becomes a whole number of samples within half a sample of `x * samplerate`. |
| AudioLoad.ResolveUnit | paderbox/io/audioread.py:188-204 | In samples the window is unchanged. Any unit other than samples and seconds raises ValueError naming it. In seconds, a negative stop raises NotImplementedError, and a conversion only succeeds once the file has opened. |
| AudioLoad.SecondsWindow | paderbox/io/audioread.py:191-202 | In seconds, for a file that opens and a stop that is not negative, the conversion succeeds. Start is converted to samples. A positive frame count is converted, and any other is kept. A missing stop stays missing, a stop of 0 stays 0, and a positive stop is converted. |
| AudioLoad.SubtypeDType | paderbox/io/audioread.py:226-233 | PCM_16 maps to int16, FLOAT to float32 and DOUBLE to float64. Any other subtype raises KeyError. |
| AudioLoad.Enrich | paderbox/io/audioread.py:241-258 | A decoder RuntimeError on a path string first asks python-magic to describe the file. If python-magic cannot open it, its OSError is the error. Otherwise a RuntimeError is raised: for a '.wav' file it says the file could not be read, and for any other suffix it names the wrong suffix. Other failures pass through unchanged. |
| AudioLoad.ReadM4a | paderbox/io/audioread.py:206-220 | A partial window raises AssertionError. Success means the `.m4a` decoder succeeded and produced a 1-D signal. |
| AudioLoad.ReadM4aFile | paderbox/io/audioread.py:206-220 | The `.m4a` read with its buffer loop computes `ReadM4a`. |
| AudioLoad.ReadSoundfile | paderbox/io/audioread.py:221-240 | The returned rate is the file's own rate. Without a dtype, an unknown subtype raises KeyError. |
| AudioLoad.SliceBound | paderbox/io/audioread.py:275 | A numpy slice bound over `n` rows is clamped as `slice.indices` does. A negative bound counts from the end. A bound past either end is pulled back to `0` or `n` for a positive step, and to `-1` or `n - 1` for a negative step. An open bound is the start or the end in the direction of the step. |
| AudioLoad.Range | paderbox/io/audioread.py:275 | `range(start, stop, step)` stays between `start` and `stop` (including `start`, excluding `stop`) in the direction of the step. It is empty exactly when `start` is already at or past `stop`. |
| AudioLoad.RangeSteps | paderbox/io/audioread.py:275 | `range` starts at `start`, moves by `step` from one element to the next, and one more step after its last element would reach or pass `stop`. |
| AudioLoad.SliceRows | paderbox/io/audioread.py:275 | The rows a slice with a non-zero step selects are all valid rows. |
| AudioLoad.RangeUp | paderbox/io/audioread.py:275 | Counting up by one from `a` to `b` visits `a, a + 1, ..., b - 1`. |
| AudioLoad.RangeDown | paderbox/io/audioread.py:275 | Counting down by one from `a` to `b` visits `a, a - 1, ..., b + 1`. |
| AudioLoad.SelectSlice | paderbox/io/audioread.py:275 | `signal[lo:hi, ]` (step open or 1) on a 2-D signal succeeds. It keeps the rows from the clamped start up to the clamped stop, in order, and none if the stop is not past the start. |
| AudioLoad.SelectReversed | paderbox/io/audioread.py:275 | `signal[::-1, ]` keeps every row, in reverse order. |
| AudioLoad.FirstOutOfRange | paderbox/io/audioread.py:275 | Finds the first index in a list that is out of range, or reports that all indices are in range. |
| AudioLoad.SelectChannel | paderbox/io/audioread.py:273-275 | `signal[channel, ]`: an index picks that row as a 1-D signal. A slice with a non-zero step keeps exactly the rows it selects, in its order, and a zero step raises ValueError. A list picks the named rows in its order. An out-of-range index raises IndexError. |
| AudioLoad.Finish | paderbox/io/audioread.py:260-282 | A rate other than the expected one raises ValueError. Without a channel the signal is the transpose. With a channel, a 1-D signal raises AssertionError on `signal.ndim == 2`. Otherwise the result is the channel selection of the transpose: its error if it fails, ValueError if it is empty, and the selection itself otherwise. The rate is returned exactly when it was asked for. |
| AudioLoad.LoadAudioOutcome | paderbox/io/audioread.py:178-282 | A rate that is returned together with an expected rate equals the expected rate. |
| AudioLoad.LoadRequest | paderbox/io/audioread.py:189-282 | After the slice notation stage, a rate that is returned together with an expected rate equals the expected rate. |
| AudioLoad.PlainRequest | paderbox/io/audioread.py:181-187 | A path without "::" reaches the later stages with the caller's start, stop and channel. |
| AudioLoad.LoadAudio | paderbox/io/audioread.py:178-282 | The stage-by-stage method computes `LoadAudioOutcome`. |
| AudioLoad.AudioShape | paderbox/io/audioread.py:571-576 | A mono file has shape `frames`. Any other file has shape `(channels, frames)`. |
| LoadProperties.SliceNotationExcludesArguments | paderbox/io/audioread.py:181-184 | With "::" in the path, any unit, frames, start, stop or channel other than the default raises AssertionError. |
| LoadProperties.SliceNotationIsExplicitWindow | paderbox/io/audioread.py:180-186 | Loading `path::[a:b,c]` gives the same outcome as loading `path` with start `a`, stop `b` and channel `c`. |
| LoadProperties.SameRequestSameOutcome | paderbox/io/audioread.py:181-187 | Two calls whose slice notation stage yields the same request, and that agree on every other argument, have the same outcome. |
| LoadProperties.RequestDecides | paderbox/io/audioread.py:189-282 | After the slice notation stage, start, stop and channel are read from the request alone. |
| LoadProperties.DecodeFails | paderbox/io/audioread.py:206-258 | When the decoder fails, its error is the outcome. |
| LoadProperties.DecodeSucceeds | paderbox/io/audioread.py:260-282 | When the decoder succeeds, the rate check, transpose and channel selection decide the outcome. |
| LoadProperties.UnitDispatch | paderbox/io/audioread.py:188-204 | An unknown unit raises ValueError naming it. A negative stop in seconds raises NotImplementedError. |
| LoadProperties.SecondsExample | paderbox/io/audioread.py:158-160 | One second from the start of a 16 kHz file asks the decoder for 16000 frames. |
| LoadProperties.M4aIgnoresFramesAndDType | paderbox/io/audioread.py:206-220 | For an `.m4a` path, `frames`, `dtype` and `fill_value` do not change the outcome. |
| LoadProperties.ResolveUnitFramesApart | paderbox/io/audioread.py:188-204 | `frames` affects neither start, stop nor success of the unit conversion. |
| LoadProperties.DefaultSoundfileRead | paderbox/io/audioread.py:221-240 | With the defaults, a file that is not `.m4a` is read whole by soundfile as float64, and the final stage only transposes. |
| LoadProperties.DefaultM4aRead | paderbox/io/audioread.py:206-220 | With the defaults and any channel, an `.m4a` file is read whole by audioread and handed to the final stage. |
| LoadProperties.M4aWholeRead | paderbox/io/audioread.py:211-220 | An `.m4a` stream of even-length buffers gives their scaled samples at the stream's rate. |
| LoadProperties.M4aDefaultSignal | paderbox/io/audioread.py:206-220 | Read with the defaults, an `.m4a` file gives the scaled decoding of all its buffers, as a 1-D signal. |
| LoadProperties.M4aNoChannelSelection | paderbox/io/audioread.py:273-274 | The `.m4a` signal is 1-D, so any channel selection raises AssertionError on `signal.ndim == 2`. |
| LoadProperties.ReadM4aWholeFile | paderbox/io/audioread.py:206-220 | The `.m4a` branch looks only at the start and stop of the window. |
| LoadProperties.DecoderFailureNamesPath | paderbox/io/audioread.py:241-258 | A decoder RuntimeError becomes python-magic's OSError when it cannot open the file. Otherwise it is re-raised naming the path for '.wav' files and the suffix otherwise. |
| LoadProperties.NoResampling | paderbox/io/audioread.py:221-270 | On success the file opened, its rate met any expected rate, and a returned rate is the file's. Without a channel the signal is the decoder's output transposed. |
| LoadProperties.SelectionNotEmpty | paderbox/io/audioread.py:272-277 | With a channel selected, a successful result has at least one element. |
| LoadProperties.ChannelShapes | paderbox/io/audioread.py:266-276 | After the transpose, an index gives a `(frames,)` signal of that channel. A slice with a non-zero step gives one row per selected channel. A list gives one row per index. |
| LoadProperties.FinishSliceShape | paderbox/io/audioread.py:266-277 | With no rate to check, a slice that selects at least one channel gives shape `(selected, frames)`. |
| LoadProperties.MultichannelExamples | paderbox/io/audioread.py:133-149 | For 6 channels and 38520 frames: `[:,0]` gives (38520,) and `[1, 3, 5]` gives (3, 38520). |
| LoadProperties.MultichannelSliceExamples | paderbox/io/audioread.py:133-149 | For 6 channels and 38520 frames: `[:,:2]` and `[:,2:4]` give (2, 38520). |
| LoadProperties.DefaultShapeIsAudioShape | paderbox/io/audioread.py:554-576 | Read with the defaults, a file has exactly the shape `audio_shape` reports. |
| RecursiveLoad.RecursiveLoadAudio | paderbox/io/audioread.py:383-402 | A leaf is what `load_audio` gives. A dict keeps its keys in order. A list loads all its items; it is stacked exactly when the loaded items are all arrays of one shape (or there are none), and otherwise it is the list of loaded items itself. Every array it returns holds as many elements as its shape says. |
| RecursiveLoad.LoadItems | paderbox/io/audioread.py:387 | Every item is loaded on its own, in order. An error is the error of the first failing item. |
| RecursiveLoad.AsNdArray | paderbox/io/audioread.py:389 | A loaded signal as an array has the signal's shape and holds as many elements as that shape says. |
| RecursiveLoad.ConcatLength | paderbox/io/audioread.py:389 | The row-major elements of a matrix whose rows all have `w` elements number `rows * w`. |
| RecursiveLoad.StackDataLength | paderbox/io/audioread.py:389 | Stacking arrays of `size` elements each gives `items * size` elements. |
| RecursiveLoad.StackDataAt | paderbox/io/audioread.py:389 | Element `j` of block `k` of the stacked elements is element `j` of item `k`. |
| RecursiveLoad.StackOrList | paderbox/io/audioread.py:389-398 | `np.array(data)` stacks exactly when all items are arrays of one shape, with shape `(len,) + shape`, or `(0,)` for no items. Otherwise the list itself is returned. |
| RecursiveLoad.StackedShape | paderbox/io/audioread.py:389-394 | Stacking arrays that each hold as many elements as their shape says gives one that does too. |
| RecursiveLoad.StackedElement | paderbox/io/audioread.py:389-394 | In a stacked list, element `j` of block `k` is element `j` of item `k`: `np.array(data)[k]` is `data[k]`. |
| RecursiveLoad.LoadEntries | paderbox/io/audioread.py:399-400 | Every dict value is loaded under its own key, in order. |
| RecursiveLoad.DictValuesLoaded | paderbox/io/audioread.py:399-400 | Each dict key maps to what its value loads to on its own. |
| RecursiveLoad.EmptyListStacks | paderbox/io/audioread.py:387-395 | An empty list becomes an empty array of shape (0,). |
| RecursiveLoad.SameFileTwiceStacks | paderbox/io/audioread.py:372-373 | `[p, p]` stacks to shape `(2,) + shape(p)`. |
| RecursiveLoad.DifferentShapesStayList | paderbox/io/audioread.py:374-375 | `[p1, p2]` with different shapes stays a list of the two arrays. |
| RecursiveLoad.TwoShapesStayList | paderbox/io/audioread.py:374-375 | Two arrays of different shapes are not stacked; they stay a list. |
| RecursiveLoad.NestedList | paderbox/io/audioread.py:379-380 | In `[p1, (p2, p2)]` the inner pair is stacked and the outer list is kept. |
| RecursiveLoad.PairsAreNotStacked | paderbox/io/audioread.py:389-398 | With `return_sample_rate=True`, a list of files is never stacked. |
| RecursiveLoad.FirstErrorWins | paderbox/io/audioread.py:387 | The first failing item decides the error of the whole list. |
| ContextManager.PrepareSubplotKwargs | paderbox/visualization/context_manager.py:267-278 | `None` becomes `{squeeze: False}`. A missing squeeze is added to a copy and all other keys are kept. A squeeze other than `False` raises AssertionError. |
| ContextManager.AxesHandler.Make | paderbox/visualization/context_manager.py:261-265 | A new handler has no rows and counter -1. |
| ContextManager.AxesHandler.Create | paderbox/visualization/context_manager.py:261-278 | Construction fails exactly when the keyword arguments fail the squeeze check. Otherwise it yields an empty handler. |
| ContextManager.NewSubplot | paderbox/visualization/context_manager.py:257-259 | A new subplot row is a new figure with `columns` axes. |
| ContextManager.Grow | paderbox/visualization/context_manager.py:281-282 | The loop appends new rows until row `row` exists. The old rows are kept as they were. |
| ContextManager.AxesHandler.GetAxes | paderbox/visualization/context_manager.py:280-285 | `get_axes` computes `GetAxesSpec`, both the new state and the result, and keeps the handler's invariant. |
| ContextManager.AxesHandler.GetItem | paderbox/visualization/context_manager.py:295-306 | `handler[item]` computes `GetItemSpec`. |
| ContextManager.AxesHandler.New | paderbox/visualization/context_manager.py:287-289 | `new` is `handler[counter + 1]`. |
| ContextManager.AxesHandler.Last | paderbox/visualization/context_manager.py:291-293 | `last` is `handler[counter]`. |
| ContextManager.GetAxesGrows | paderbox/visualization/context_manager.py:280-283 | `get_axes` only appends rows, and afterwards row `row` exists. |
| ContextManager.GetAxesCounter | paderbox/visualization/context_manager.py:284 | The counter never decreases. Once the row exists it becomes `max(counter, row * columns + col)`, even if the column is invalid. |
| ContextManager.GetAxesResult | paderbox/visualization/context_manager.py:282-285 | `get_axes` succeeds exactly when both the row and the column are valid Python indices. It returns the axis at that row and column. |
| ContextManager.IntItemCell | paderbox/visualization/context_manager.py:296-301 | An integer is split by floor division into a row and an in-range column, and the two recombine to the integer. |
| ContextManager.Cell | paderbox/visualization/context_manager.py:296-301 | The `i`-th axis counted row by row has an in-range column, and its row and column recombine to `i`. |
| ContextManager.ItemDispatch | paderbox/visualization/context_manager.py:295-306 | A pair is passed through as `(row, col)`. Any other type raises TypeError. `-1` divides by zero exactly when the counter is 0. |
| ContextManager.NewAdvances | paderbox/visualization/context_manager.py:287-289 | `new` always succeeds and raises the counter by exactly one. It returns the next cell in row-major order. |
| ContextManager.LastKeepsCounter | paderbox/visualization/context_manager.py:291-293 | `last` never moves the counter. It fails only when nothing has been created. With counter -1 it returns the last axis of the last row. |
| ContextManager.TwoColumnWalkthrough | paderbox/visualization/context_manager.py:324-329 | In the two-column usage example, `new`, `new`, `last`, `[1]` and `[1, 1]` return the cells (0,0), (0,1), (0,1), (0,1) and (1,1). |
| ContextManager.LatexContextManager.Make | paderbox/visualization/context_manager.py:93-105 | The build folder defaults to the file's directory, and the extra rc parameters default to an empty dict. |
| ContextManager.LatexContextManager.Create | paderbox/visualization/context_manager.py:92-105 | A file name not ending in ".svg" raises AssertionError. Otherwise the fields are set with their defaults. |
| ContextManager.LatexContextManager.BuildFile | paderbox/visualization/context_manager.py:139-147 | An export file exists exactly when an export type is set, and it ends in "." followed by that type. |
| ContextManager.ExportFile | paderbox/visualization/context_manager.py:146-147 | The export file name ends in "." followed by the export type. |
| ContextManager.ExportFileReplacesSvg | paderbox/visualization/context_manager.py:146-147 | For `stem.svg`, where the stem is not only dots, the export file is `join(build_folder, stem)` with the export type as its extension. |
| ContextManager.ExportNextToFigure | paderbox/visualization/context_manager.py:100 | With the default build folder, `figures/plot.svg` exports to `figures/plot.pdf`. |
| ContextManager.HiddenSvgKeepsName | paderbox/visualization/context_manager.py:146-147 | A file named just ".svg" has no extension for `splitext`, so it exports to `build/.svg.pdf`. |
| FacetGrid.BroadcastLengths | nt/visualization/module_facet_grid.py:8-35 | Under the two assertions, the broadcast signal, function and keyword-argument lists all have the same length. That length is the number of plots, unless one list is empty and the other is a singleton. |
| FacetGrid.BroadcastElements | nt/visualization/module_facet_grid.py:19-35 | Element `i` of each broadcast list is element `i` of the original list, or its only element. Missing keyword arguments become `{}`. |
| FacetGrid.RowsCoverPlots | nt/visualization/module_facet_grid.py:16-17 | `ceil(plots / colwrap)` rows hold every plot and leave fewer than `colwrap` axes spare. |
| FacetGrid.FacetGridAssertions | nt/visualization/module_facet_grid.py:8-13 | AssertionError is raised exactly when the list lengths do not match. |
| FacetGrid.FacetGridDividesByZero | nt/visualization/module_facet_grid.py:8-17 | Past the assertions, a zero `colwrap` divides by zero, and nothing else does. |
| FacetGrid.FacetGridPlans | nt/visualization/module_facet_grid.py:8-27 | A grid is planned exactly when the lengths match, `colwrap` is positive and there is something to plot. |
| FacetGrid.LayoutPanels | nt/visualization/module_facet_grid.py:37-43 | Axis `i` is drawn on exactly when `i` is below the number of broadcast signals, with the matching function, signal and keyword arguments. Exactly the axes from the number of plots on are switched off, and there are fewer than `colwrap` of them. |
| FacetGrid.IntendedAlwaysPlans | nt/visualization/module_facet_grid.py:27-43 | When the assertions hold, `colwrap` is positive and there is something to plot, the corrected version always plans a grid. |
| FacetGrid.SingleAxisFails | nt/visualization/module_facet_grid.py:27-38 | As written, one signal and one function with `colwrap=1` raise AttributeError. The corrected version draws the single axis. |
| FacetGrid.AsWrittenDiffersOnlyOnSingleAxis | nt/visualization/module_facet_grid.py:27-43 | The code as written and the corrected version differ exactly on a one-by-one grid that has something to draw. |
| FacetGrid.FacetGrid | nt/visualization/module_facet_grid.py:7-43 | The function as written, with its rebindings and loops, computes `FacetGridAsWritten`, including the AttributeError on a one-by-one grid with something to draw. |
| FacetGrid.FillPanels | nt/visualization/module_facet_grid.py:37-43 | The two loops over the flattened axes produce `Panels`. |

## Left out

- Decoding itself is not modelled: soundfile's `read`, `_prepare_read` and `fill_value` padding, and the audioread stream. They are the `Decoder` oracle's `open`, `read` and `m4a` fields, and every property holds for any oracle.
- AudioLoad.RoundHalfEven: models `np.round` on exact reals. The floating-point product `start * samplerate` and its rounding error are not modelled.
- AudioLoad.Finish: the ValueError for a sample-rate mismatch carries a fixed message. The two rates that the source formats into it are not modelled.
- The text that `magic.from_file` adds to the re-raised RuntimeError is not modelled. The errors keep only the path and the suffix. Whether python-magic can open the file is the `Decoder` oracle's `magicOpens` field.
- Path normalisation is not modelled: paderbox/io/path_utils.py is not part of this model. A path is a string or an opaque file object.
- PathNames.Suffix: drops trailing slashes but not "." components, which `pathlib` also drops. For "a.m4a/." `pathlib` gives ".m4a" where this model gives "".
- `Path(path).as_posix()` rewriting the path inside error messages is not modelled.
- `\d` in the slice pattern is read as the ASCII digits 0-9. Python's regex module also accepts other Unicode decimal digits.
- Pcm.ReadFromByteString: the final `astype(np.float32) / np.max(audio_data)` normalisation is not modelled (floating point). The result is the de-interleaved samples as exact reals.
- Pcm.ReadFromByteString: covers only the default 2-byte `<i2` dtype.
- Pcm.ReadFromByteString: the WAV header parsing of `wave.openfp` is not modelled. The channel count (at least 1) and the frame bytes are parameters. `wave.openfp` was removed in Python 3.9, so on current interpreters the function raises AttributeError before any of this.
- Not modelled, as I/O or deprecated wrappers: `audioread`, `audio_length`, `audio_channels`, `read_nist_wsj`, `read_raw`, `getparams` and `is_nist_sphere_file`.
- Generator inputs to `recursive_load_audio` are not modelled. Nor is the old-numpy branch that returns an object array, because current numpy raises ValueError for ragged lists.
- Errors that audioread raises in the middle of an `.m4a` stream are not modelled.
- AudioLoad.SelectChannel: numpy integer arrays and boolean masks as `channel` are not modelled. Lists and tuples of integers are.
- In `_AxesHandler`, `columns < 1` is not modelled: `plt.subplots` rejects it at the first row, so such a handler never returns an axis.
- In `_AxesHandler`, the items of a tuple index are integers. Other element types are not modelled.
- The `axes_context` docstring writes `axes.axes[1]`, an attribute `_AxesHandler` does not have. `ContextManager.TwoColumnWalkthrough` reads it as `axes[1]`.
- `_AxesHandler` keeps the caller's dict itself when it already has `squeeze=False`. That aliasing is not captured, because keyword arguments are immutable values here.
- `LatexContextManager`'s `extra_rc` aliasing is not captured either.
- Styling is not modelled: `figure_context`, the seaborn and rc settings, `DollarFormatter`, palettes, figure-size scaling, `__enter__` and `__exit__` (savefig and the inkscape subprocess), and `facet_grid`'s `scale` and `sns.axes_style`.
- FacetGrid.RowsCoverPlots: `int(np.ceil(plots / colwrap))` is computed on integers. Float division is exact for realistic plot counts.
- FacetGrid.FacetGridPlans: the ValueError for a non-positive grid size is `plt.subplots`'s own check, modelled with a generic message.
- `facet_grid` draws by calling the plotting functions. Here a drawn axis records the function, the signal and the keyword arguments instead.
- The test files under tests/ exercise other packages (reverberation, trainer, lexicon, filters) and are not part of this model.

## Findings

| source | as written | input that shows it | evidently intended | confidence | as-written member | corrected member |
|---|---|---|---|---|---|---|
| nt/visualization/module_facet_grid.py:27-38 | `plt.subplots(number_of_rows, colwrap)` uses the default `squeeze=True`. A 1x1 grid then returns a single `Axes`, and `axis.flatten()` raises AttributeError. | `facet_grid([signal], [function], colwrap=1)` | The single axis is drawn, as it is for every larger grid (`squeeze=False`) | medium, not executed (relies on matplotlib's `squeeze` behaviour) | FacetGrid.FacetGridAsWritten, FacetGrid.SingleAxisFails, FacetGrid.FacetGrid | FacetGrid.FacetGridOutcome, FacetGrid.IntendedAlwaysPlans |
