# picasound core in Dafny

picasound turns live audio into video through a pull-based dataflow graph. A YAML file declares
named nodes, each with a type, an options block and a list of input node names. Sources are an
audio device and a random-colour generator. Processors are spectrum, equalizer, merge, average,
circle and loudness. The sink is an RTSP server. Each video tick, the sink pulls a frame from its
input, which pulls from its own inputs, and so on back to the sources. Frame ids let nodes cache
work for a frame.

This project models the sequential core of that engine and proves properties about it:

- **Pipeline builder** (`load.dfy`, `graph.dfy`). `BuildPipeline` runs the checks in the source's
  order: an unknown node type, then a missing sink, then an undeclared input (a panic), then a
  cycle. It then builds the video settings and constructs every node after its inputs, following
  a topological order computed by Kahn's algorithm (`Graph.TopoSort`). On success it returns one
  handle per sink node.
- **Node factory and registry** (`pipeline.dfy`). These are the type-name→constructor and
  node-name→handle maps. `Construct` says, for each of the nine node kinds, which inputs and
  options it accepts.
- **Input validators** (`inputs.dfy`). These check arity and capabilities over the sequence of
  input handles.
- **Audio buffer** (`audio.dfy`). A class holding the sample vector, which is compacted to its
  newest `bufSize` samples, with tail windows `Exact` and `Frames`.
- **Video frame and configuration** (`video.dfy`):
  - a BGRx byte array (`array<u8>`) with stride `4 * width`;
  - per-channel setters;
  - `Clear`, `CopyFrom` and the row-major visitors `Apply`/`ApplyZip`, proved against the
    pixel-wise functions `MapPixels`/`ZipPixels`;
  - the range-checked `VideoConfigBuilder`.
- **Frame identity and counters** (`util.dfy`, `misc.dfy`). These are the last-seen frame id, the
  id generator and the modulo frame counter.
- **Options** (`options.dfy`). The recursive decoder from YAML values to option values, and the
  accessors on option values.
- **Spectrum store** (`spectrum.dfy`). It recomputes iff the frame id is new. It slices bins and
  maps between bins and frequencies as the code does, with the spectrum length as the divisor.
  Window-length versions sit beside them (see "## Findings").
- **Processors and the random-colour source** (`merge.dfy`, `spectrum_node.dfy`,
  `equalizer.dfy`, `average.dfy`, `random_color.dfy`). Their option parsing and validation, plus
  the integer or real parts of their per-tick rules.

Conventions used throughout:

- A Rust `Result` is `Util.Result`.
- A panic or a failed `assert!` that a caller can trigger is `Util.Outcome.Panic`.
- An assertion the caller must never trip (for example `push` of an oversized chunk) is a
  `requires`.
- `f32` samples, intensities and frequencies are `real`.
- Each merge mode, `Mode::apply`, is `a + b` for `Sum` and `a * b` for `Product`
  (`MergeProcessor.Mode.Apply`).

## Model

| member | source | states |
|---|---|---|
| Util.LastFrameId.constructor | src/util.rs:25-26 | the id starts as the default id 0 |
| Util.LastFrameId.Update | src/util.rs:34-41 | returns true iff the stored id differed from `other`; afterwards the stored id equals `other` |
| Util.FrameIdGenerator.constructor | src/util.rs:47-48 | the generator starts at 1 |
| Util.FrameIdGenerator.Get | src/util.rs:50-52 | returns the current counter and advances it by one, so later ids are strictly larger; no generated id equals the default id |
| Misc.Next | src/util/misc.rs:13-17 | the next counter value is always below the modulus |
| Misc.Returned | src/util/misc.rs:13-17 | the values `k` successive calls return; there are exactly `k` of them |
| Misc.FrameCounter.constructor | src/util/misc.rs:8-11 | requires a positive modulus; the counter starts at 0 |
| Misc.FrameCounter.FetchInc | src/util/misc.rs:13-17 | returns the previous counter and sets it to `(old + 1) % m`, keeping `counter < m` |
| Misc.AfterIsShift | src/util/misc.rs:13-17 | after `k` calls the counter is `(c + k) % m` |
| Misc.NextOfMod | src/util/misc.rs:15 | one step from `x % m` lands on `(x + 1) % m` |
| Misc.ZeroAt | src/util/misc.rs:13-17 | within one period, the only step that returns 0 is step `(m - c) % m` |
| Misc.ZeroOncePerPeriod | src/util/misc.rs:13-17 | over `m` consecutive calls, 0 is returned at most once |
| Misc.ZeroWithinPeriod | src/util/misc.rs:13-17 | over `m` consecutive calls, 0 is returned at least once |
| Inputs.Check | src/util/inputs.rs:17-31 | a `Capability` validator passes iff the input has it; a two-capability validator passes iff the input has either one |
| Inputs.ValidateNone | src/util/inputs.rs:42-57 | `()` validation succeeds iff there are no inputs; otherwise `InvalidInputs` |
| Inputs.ValidateOne | src/util/inputs.rs:59-80 | succeeds iff there is exactly one input and it passes the check, returning that input; zero or several inputs give `InvalidInputs` |
| Inputs.ValidatePairAsWritten | src/util/inputs.rs:82-113 | the loop as written: succeeds iff there are two or three inputs and the first two pass their validators; returns the first two in order |
| Inputs.ThirdInputIgnored | src/util/inputs.rs:98-109 | three inputs whose first two pass are accepted as written, though exactly two are intended |
| Inputs.ValidatePair | src/util/inputs.rs:82-113 | succeeds iff there are exactly two inputs and each passes its own validator; returns them in order; otherwise `InvalidInputs` |
| Pipeline.TypeName | src/pipeline.rs:193-211 | each kind's type name is registered in the default factory under that kind, so the factory finds the kind again by its name |
| Pipeline.Capabilities | src/pipeline.rs:29-31 | the rtsp sink keeps the trait's default of no capability, and every other kind has exactly one: audio data for the device (device.rs:45-47); video frames for random-colour, circle, equalizer and merge; spectra for spectrum; numbers for average and loudness (each node's `has_capability`) |
| Pipeline.IsSink | src/pipeline.rs:143-145 | only the kind named `rtsp` overrides `is_sink`, and a sink advertises no capability |
| Pipeline.HandleCapabilities | src/pipeline.rs:77-79 | the shared handle of a constructed node answers `has_capability` as its kind's node does, capability by capability |
| Pipeline.DefaultConstructorsSize | src/pipeline.rs:193-211 | the default factory registers nine distinct type names |
| Pipeline.SinkIsNoInput | src/pipeline.rs:143-145 | only the rtsp kind is a sink, and a sink advertises no capability, so no validator accepts it as an input |
| Pipeline.Start | src/pipeline.rs:24-27 | starting a node panics iff it is not a sink; a sink starts with `Ok` |
| Pipeline.DeviceNew | src/sources/device.rs:13-27 | inputs give `InvalidInputs`; a missing sample rate or stream gives `System`; fps 0 panics in the audio buffer's division; otherwise construction succeeds |
| Pipeline.RtspNew | src/sinks/rtsp.rs:24-44 | succeeds iff there is exactly one `ProvideVideoFrame` input and the server comes up; input errors precede `System` |
| Pipeline.Built | src/pipeline.rs:60-66 | wraps a successful construction as a handle with the kind's capabilities and sink flag; errors and panics pass through unchanged |
| Pipeline.Construct | src/pipeline.rs:132-145 | each kind's constructor either yields a handle named after the node, with that kind's capabilities and sink flag, or fails with `InvalidInputs`, `InvalidOptions` or `System` |
| Pipeline.DefaultFactoryKinds | src/pipeline.rs:193-211 | the default factory holds exactly the nine kinds, each under its own type name, and only `rtsp` is a sink |
| Pipeline.NodeFactory.Empty | src/pipeline.rs:153-157 | the empty factory has no constructors |
| Pipeline.NodeFactory.Register | src/pipeline.rs:159-171 | requires that the type name is new (the source asserts it); afterwards the map gains exactly that entry |
| Pipeline.NodeFactory.Get | src/pipeline.rs:186-190 | `Some` iff a constructor is registered under the name, and its type name is that name |
| Pipeline.NodeFactory.ConstructNode | src/pipeline.rs:173-184 | an unregistered type gives `UnknownNode(type)`; otherwise the result is the registered kind's construction |
| Pipeline.NodeFactory.Default | src/pipeline.rs:193-211 | the default factory's map is exactly the nine kinds by type name |
| Pipeline.NodeRegistry.constructor | src/pipeline.rs:103-107 | the registry starts empty |
| Pipeline.NodeRegistry.Register | src/pipeline.rs:109-114 | afterwards `get(name)` returns the new handle and every other name is unchanged |
| Pipeline.NodeRegistry.Get | src/pipeline.rs:116-122 | `Some` iff the name is registered, holding that handle |
| Audio.AudioBuffer.constructor | src/util/audio.rs:17-28 | `frameSize = sampleRate / fps` and `bufSize = 250 * frameSize`; the buffer starts empty |
| Audio.AudioBuffer.Push | src/util/audio.rs:38-51 | requires a chunk of at most `bufSize` samples. Without compaction the chunk is appended. When `len + chunk > 2 * bufSize`, the buffer first keeps its last `bufSize` samples, and `len > bufSize` there, so no underflow. The length stays `<= 2 * bufSize`, and the stored samples are always the newest ones pushed |
| Audio.AudioBuffer.Exact | src/util/audio.rs:60-65 | the newest `min(n, bufSize)` samples ever pushed, or all of them when fewer were pushed |
| Audio.AudioBuffer.Frames | src/util/audio.rs:53-58 | the newest `min(frameSize * k, bufSize)` samples, saturated the same way |
| Audio.ExactNested | src/util/audio.rs:60-65 | between pushes, a wider window ends with any narrower one |
| Video.Red | src/util/video.rs:12-14 | the red byte; writing it back leaves the pixel unchanged |
| Video.Green | src/util/video.rs:16-18 | the green byte; writing it back leaves the pixel unchanged |
| Video.Blue | src/util/video.rs:20-22 | the blue byte; writing it back leaves the pixel unchanged |
| Video.SetRed | src/util/video.rs:36-38 | writes byte 2 and leaves the other bytes unchanged |
| Video.SetGreen | src/util/video.rs:40-42 | writes byte 1 and leaves the other bytes unchanged |
| Video.SetBlue | src/util/video.rs:44-46 | writes byte 0 and leaves the other bytes unchanged |
| Video.SetGrayscale | src/util/video.rs:60-62 | sets bytes 0, 1 and 2 to the value and leaves byte 3 unchanged |
| Video.ChannelsIndependent | src/util/video.rs:12-22 | each getter reads back its setter's value and is unaffected by the other setters; grayscale is the three setters composed |
| Video.ToF | src/util/video.rs:69-71 | a byte maps into [0, 1] |
| Video.FromF | src/util/video.rs:73-75 | values at or below 0 map to 0 and values at or above 1 map to 255; in between, `v * 255` truncated, so the byte's intensity is at most `v` and within 1/255 of it |
| Video.SetRedF | src/util/video.rs:48-50 | the red byte becomes `FromF(v)`, at most `v` and within 1/255 of it; the other bytes keep their values |
| Video.SetGreenF | src/util/video.rs:52-54 | the green byte becomes `FromF(v)`, at most `v` and within 1/255 of it; the other bytes keep their values |
| Video.SetBlueF | src/util/video.rs:56-58 | the blue byte becomes `FromF(v)`, at most `v` and within 1/255 of it; the other bytes keep their values |
| Video.FromToF | src/util/video.rs:69-75 | converting a byte to a real and back gives the same byte |
| Video.MapPixelsAt | src/util/video.rs:135-144 | pixel `(x, y)` of the mapped buffer is `f(x, y, old pixel at y * width + x)` |
| Video.PixelOfMap | src/util/video.rs:135-144 | pixel `p` of the mapped buffer is `f` applied to `p`'s coordinates and old value |
| Video.ZippedPixel | src/util/video.rs:146-167 | each byte of both zipped buffers comes from `f` applied to the same-coordinate pixels of the two frames |
| Video.VideoFrame.constructor | src/util/video.rs:96-107 | stride is `4 * width`, the buffer holds `4 * width * height` bytes, all zero |
| Video.VideoFrame.Clone | src/processors/merge.rs:81 | a fresh frame of the same size holding the same bytes |
| Video.VideoFrame.CopyFrom | src/util/video.rs:125-129 | requires equal width and height; afterwards the buffers are equal |
| Video.VideoFrame.Clear | src/util/video.rs:131-133 | every byte is zero; the size is unchanged |
| Video.VideoFrame.Apply | src/util/video.rs:135-144 | the row-major loop leaves exactly `MapPixels` of the old buffer: every in-bounds pixel visited with its own coordinates |
| Video.VideoFrame.ApplyZip | src/util/video.rs:146-167 | requires equal dimensions; afterwards each frame holds its half of `f` applied to each same-coordinate pixel pair |
| Video.VideoConfigBuilder.constructor | src/util/video.rs:190-205 | the builder starts from the default 1280×720 at 24 fps |
| Video.VideoConfigBuilder.Width | src/util/video.rs:213-218 | requires an even width in [352, 7680]; only the width changes |
| Video.VideoConfigBuilder.Height | src/util/video.rs:220-225 | requires an even height in [240, 4320]; only the height changes |
| Video.VideoConfigBuilder.Fps | src/util/video.rs:227-231 | requires fps in [1, 60]; only the fps changes |
| Video.VideoConfigBuilder.Build | src/util/video.rs:233-235 | the built configuration satisfies all three ranges |
| Options.FromYamlValue | src/options.rs:18-45 | `Null` and `Tagged` fail with `InvalidOptions`; scalars keep their value; sequences and mappings decode to their own variant |
| Options.FromYamlSeq | src/options.rs:27-32 | a sequence decodes iff every element does, keeping length and order |
| Options.FromYamlEntries | src/options.rs:33-41 | a mapping decodes iff every key is a string and every value decodes |
| Options.FromYamlEntriesMap | src/options.rs:33-41 | the decoded map's keys are exactly the string keys; a repeated key keeps its last value |
| Options.LastEntryWins | src/options.rs:33-41 | inserting entries in order, the last occurrence of each key decides its value |
| Options.FromYaml | src/options.rs:7-16 | the top-level block decodes iff all keys are strings and all values decode; the result's keys are those keys |
| Options.NonStringKeyRejected | src/options.rs:7-45 | a non-string key, at top level or nested, gives `InvalidOptions` |
| Options.DecodedLookup | src/options.rs:7-16 | in a decoded option block, a key maps to what its last entry decodes to, and `as_bool`, `as_f32` and `as_str` read back the YAML boolean, number or string it came from |
| Options.DecodedGet | src/options.rs:101-106 | `get` on a decoded nested mapping finds what the key's last entry decodes to |
| Options.AsBool | src/options.rs:57-62 | `Some` iff the value is a boolean, holding it |
| Options.AsF32 | src/options.rs:64-69 | `Some` iff the value is a number, holding it |
| Options.AsI32 | src/options.rs:71-82 | `Some` iff the value is an integral number, saturated to the 32-bit range |
| Options.AsStr | src/options.rs:84-89 | `Some` iff the value is a string, holding it |
| Options.AsSlice | src/options.rs:91-99 | a scalar is a one-element slice of itself, a sequence its elements, a mapping `None` |
| Options.NumbersOf | src/processors/merge.rs:33-39 | a list decodes to numbers iff every element is a number, keeping order |
| Options.AsNumbers | src/processors/merge.rs:30-44 | a single number is a one-element list; a sequence must hold only numbers; anything else is `InvalidOptions` |
| Options.Get | src/options.rs:101-106 | `None` on any non-mapping; otherwise the key's value if present |
| Options.Lookup | src/load.rs:146 | the top-level options block's entry for a key, if present |
| Options.FromPair | src/options.rs:133-141 | a pair becomes a two-element sequence, in order |
| Options.FromNumber | src/options.rs:121-125 | a number converts to a value that reads back as that number |
| Options.PairOfNumbers | src/processors/spectrum.rs:27-36 | the default frequency range reads back as exactly its two numbers |
| Spectral.RoundToUsize | src/util/spectrum.rs:119-123 | rounds a non-negative real to the nearest natural number, and a negative one to 0 |
| Spectral.RoundToUsizeMonotone | src/util/spectrum.rs:119-123 | rounding is monotone |
| Spectral.RoundToUsizeExact | src/util/spectrum.rs:119-123 | natural numbers round to themselves |
| Spectral.BinForMonotone | src/util/spectrum.rs:119-123 | a higher frequency never maps to a lower bin |
| Spectral.BinForFreq | src/util/spectrum.rs:119-127 | the bin of a bin's frequency is that bin |
| Spectral.AbsoluteBinIs | src/util/spectrum.rs:119-123 | the bin is the rounding of `f * size / sampleRate` |
| Spectral.BinForNearest | src/util/spectrum.rs:119-127 | with the window length as size, the bin's frequency lies within half a bin spacing of `f` |
| Spectral.BinsAsWrittenMisplaced | src/util/spectrum.rs:59-62 | as written, 1000 Hz in a 4096-sample window at 48 kHz maps to bin 43, whose frequency is more than half a bin from 1000 Hz |
| Spectral.Spectrum.BinFor | src/util/spectrum.rs:100-104 | requires the frequency in range; the result plus `bin0` is the absolute bin computed with `orig_len` as the divisor, and it lies within the slice |
| Spectral.Spectrum.Freq | src/util/spectrum.rs:106-108 | the frequency of absolute bin `bin0 + b` computed with `orig_len` as the divisor, which maps back to that bin |
| Spectral.SliceBinFreq | src/util/spectrum.rs:100-108 | `bin_for(freq(b)) == b` for every bin whose frequency is in range, both with `orig_len` as the divisor |
| Spectral.Slice | src/util/spectrum.rs:59-66 | with no range, the whole spectrum with `bin0 = 0`; with a range, the bins from `bin_for(orig_len, f_min)` up to `bin_for(orig_len, f_max)`, with `bin0` the first, panicking iff the end lies past the spectrum or the sample rate is 0; `origLen` is always the full length |
| Spectral.DefaultRangeAsWritten | src/util/spectrum.rs:59-62 | at 48 kHz with the default window and range, the slice as written is bins 1 to 337, while 7902.13 Hz is bin 674 |
| Spectral.SliceCorrected | src/util/spectrum.rs:59-66 | the cut with the window length as the divisor: the same panics, and the first bin's frequency lies within half a bin spacing of `f_min` |
| Spectral.BinForCorrected | src/util/spectrum.rs:100-104 | with the window length as the divisor, the relative bin lies within the slice and its frequency within half a bin spacing of `f` |
| Spectral.FreqCorrected | src/util/spectrum.rs:106-108 | with the window length as the divisor, the frequency of bin `bin0 + b`, which maps back to that bin |
| Spectral.Windowed | src/util/spectrum.rs:200-210 | windowing keeps the length |
| Spectral.Scaled | src/util/spectrum.rs:184-185 | normalisation keeps the length |
| Spectral.Stft.constructor | src/util/spectrum.rs:145-162 | the input holds `windowLen` samples and the output `windowLen / 2 + 1` zero bins |
| Spectral.Stft.Compute | src/util/spectrum.rs:174-188 | requires exactly `windowLen` samples; the output is the normalised transform of the windowed input |
| Spectral.Stft.ApplyWindow | src/util/spectrum.rs:201-209 | the loop multiplies every sample by its window coefficient, in place |
| Spectral.Stft.Normalize | src/util/spectrum.rs:184-185 | the loop scales every bin by the normalisation, in place |
| Spectral.Stft.Get | src/util/spectrum.rs:190-192 | the last output, of length `windowLen / 2 + 1` |
| Spectral.SpectrumStore.constructor | src/util/spectrum.rs:33-49 | requires `0 < f_min < f_max` for a range (the source asserts both); the last id starts as the default |
| Spectral.SpectrumStore.Compute | src/util/spectrum.rs:51-74 | recomputes iff the id is new, panicking then on a wrong-length window; otherwise the cached spectrum is reused; either way the result is the cached spectrum cut to the range as written, so a zero sample rate panics |
| MergeProcessor.Mode.Apply | src/processors/merge.rs:111-116 | `Sum` has 0 as identity and never decreases a channel for a non-negative input; `Product` has 1 as identity, 0 as absorbing element, and never raises a channel for a weight in [0, 1]; both keep channels non-negative |
| MergeProcessor.ParseContributions | src/processors/merge.rs:30-44 | absent means `n` copies of `1 / n`; otherwise a number or a list of numbers, else `InvalidOptions` |
| MergeProcessor.ParseMode | src/processors/merge.rs:46-54 | absent means `Sum`; `"sum"` is `Sum`, `"product"` is `Product`; anything else is `InvalidOptions` |
| MergeProcessor.New | src/processors/merge.rs:18-61 | no inputs, or an input without `ProvideVideoFrame`, gives `InvalidInputs`; otherwise the parsed contributions and mode, or `InvalidOptions` |
| MergeProcessor.Zeros | src/util/video.rs:131-133 | a buffer of `n` zero bytes |
| MergeProcessor.BlendInput | src/processors/merge.rs:90-98 | input `i` is drawn into the scratch frame and blended into the frame with its contribution; the scratch frame is then all zero |
| MergeProcessor.ProvideVideoFrame | src/processors/merge.rs:69-101 | panics iff there is no input or no contribution; otherwise the frame becomes `Merged`: input 0 scaled by `c[0]`, then each later input with a matching contribution blended in order |
| MergeProcessor.ExtraContributionsIgnored | src/processors/merge.rs:84-88 | contributions beyond the number of inputs do not change the result |
| MergeProcessor.BlendFromPrefix | src/processors/merge.rs:84-88 | blending only reads the contributions up to the last blended input |
| MergeProcessor.UnweightedInputsIgnored | src/processors/merge.rs:84-88 | inputs with no matching contribution are never pulled: changing them leaves the result unchanged |
| MergeProcessor.BlendFromSamePulls | src/processors/merge.rs:84-99 | the blend depends only on the inputs it pulls |
| MergeProcessor.SingleContributionOnlyScales | src/processors/merge.rs:70-78 | with one input or one contribution, the result is input 0 scaled by `c[0]` |
| SpectrumProcessor.WindowSize | src/processors/spectrum.rs:21-25 | absent means 4096; otherwise it must be an integral number, else `InvalidOptions` |
| SpectrumProcessor.Range | src/processors/spectrum.rs:27-38 | absent means (16.35, 7902.13); otherwise exactly two numbers with `f_min < f_max`, else `InvalidOptions` |
| SpectrumProcessor.New | src/processors/spectrum.rs:18-46 | requires one `ProvideAudioData` input; option errors are `InvalidOptions`; options that parse but give a window of at most 0 samples, or `f_min <= 0`, abort; otherwise the input, window and range are kept |
| SpectrumProcessor.SpectrumNode.constructor | src/processors/spectrum.rs:40-45 | the node keeps its input and owns a fresh store with the parsed window and range |
| SpectrumProcessor.SpectrumNode.ProvideSpectrum | src/processors/spectrum.rs:54-61 | requests exactly `windowLen` samples from the audio buffer and behaves as the store's `Compute` on them |
| SpectrumProcessor.WarmBufferGivesWindow | src/processors/spectrum.rs:54-61 | once the buffer has seen enough samples, the request yields exactly the newest `windowLen` |
| SpectrumProcessor.ColdBufferGivesLess | src/processors/spectrum.rs:54-61 | before that, or when the window exceeds the buffer size, it yields fewer, so the transform's length assertion fails |
| EqualizerProcessor.New | src/processors/equalizer.rs:16-20 | succeeds iff there is exactly one `ProvideSpectrum` input |
| EqualizerProcessor.BinWidthIsCeiling | src/processors/equalizer.rs:31 | `bin_width` is the ceiling of `width / n_bins`: the smallest width whose `n_bins` bars cover the frame |
| EqualizerProcessor.BinOf | src/processors/equalizer.rs:35 | column `x`'s bin `x / bin_width` is below the number of bins |
| EqualizerProcessor.BinInBounds | src/processors/equalizer.rs:31-36 | every column's bin index is below the number of bins |
| EqualizerProcessor.BarHeight | src/processors/equalizer.rs:37-39 | the rounded bar height, with heights below 5 replaced by 0 |
| EqualizerProcessor.LitAsWritten | src/processors/equalizer.rs:41 | as written, `height - bar_height` panics iff the bar is taller than the frame |
| EqualizerProcessor.TallBarUnderflows | src/processors/equalizer.rs:37-41 | amplitude 1.2 on a 720-row frame gives a bar of 864, which underflows |
| EqualizerProcessor.LitIsBottomRows | src/processors/equalizer.rs:41-43 | a row is lit iff it is among the bottom `bar_height` rows |
| EqualizerProcessor.LitAgreesWhenBarFits | src/processors/equalizer.rs:41-43 | when the bar fits, the corrected rule agrees with the code as written |
| EqualizerProcessor.TooTall | src/processors/equalizer.rs:35-41 | a column's bar is taller than the frame |
| EqualizerProcessor.ProvideVideoFrame | src/processors/equalizer.rs:28-45 | panics iff the frame has rows and either the spectrum is empty or some column's bar is taller than the frame (the unsigned subtraction); otherwise lit pixels become grayscale 255 and all others keep their bytes |
| EqualizerProcessor.PaintedPixel | src/processors/equalizer.rs:31-43 | pixel `(x, y)` afterwards is grayscale 255 iff `y` lies in the bottom `bar` rows of its column's bin, else unchanged |
| EqualizerProcessor.PainterBottomRows | src/processors/equalizer.rs:35-43 | the closure lights a pixel iff its row is among the bottom rows of its column's bar |
| EqualizerProcessor.PainterAt | src/processors/equalizer.rs:33-43 | the per-pixel closure lights exactly the pixels of its column's bar |
| AverageProcessor.New | src/processors/average.rs:14-28 | requires one `ProvideNumber` input; `smoothing-factor` defaults to 0.5 and must be a number, else `InvalidOptions` |
| AverageProcessor.Average.constructor | src/processors/average.rs:22-27 | the average starts at 0 |
| AverageProcessor.Average.ProvideNumber | src/processors/average.rs:36-40 | `avg := α·x + (1−α)·avg`, returning the new average, which is the smoothing of all pulled values |
| AverageProcessor.Smooth | src/processors/average.rs:38 | one step moves the average the fraction α of the way to the new value, leaving the fraction 1 − α of the old gap |
| AverageProcessor.FullSmoothingTracksInput | src/processors/average.rs:36-40 | with α = 1 the average is the last pulled value |
| AverageProcessor.NoSmoothingStaysZero | src/processors/average.rs:36-40 | with α = 0 the average stays 0 for ever |
| AverageProcessor.AveragedBounded | src/processors/average.rs:36-40 | for α in [0, 1], the average stays within any bounds that hold the inputs and 0 |
| AverageProcessor.ConvexBetween | src/processors/average.rs:38 | one step with α in [0, 1] stays between the old average and the input's bounds |
| RandomColorSource.Splits | src/sources/random_color.rs:58-76 | an absent split option is empty; otherwise a number or a list of numbers |
| RandomColorSource.ScaledSplits | src/sources/random_color.rs:70-75 | each split fraction scaled to the side length, in order |
| RandomColorSource.Borders | src/sources/random_color.rs:58-82 | 0, then the scaled splits in order, then the length |
| RandomColorSource.GetBorders | src/sources/random_color.rs:58-82 | the method builds exactly `Borders`, or fails with `InvalidOptions` iff the option does |
| RandomColorSource.ScaleAll | src/sources/random_color.rs:70-75 | the loop scales every split in order |
| RandomColorSource.Row | src/sources/random_color.rs:38-41 | one cell per consecutive pair of x borders |
| RandomColorSource.BuildCells | src/sources/random_color.rs:36-42 | the nested loop builds consecutive border pairs, y-major then x |
| RandomColorSource.PushRow | src/sources/random_color.rs:38-41 | the inner loop appends one row of cells |
| RandomColorSource.CellsCount | src/sources/random_color.rs:36-42 | there are `(nx - 1) * (ny - 1)` cells for `nx` x borders and `ny` y borders |
| RandomColorSource.CellAt | src/sources/random_color.rs:36-42 | cell `j * (nx - 1) + i` spans borders `i..i+1` by `j..j+1` |
| RandomColorSource.BorderCovers | src/sources/random_color.rs:107-110 | every coordinate below the length lies between two consecutive borders |
| RandomColorSource.GridCovers | src/sources/random_color.rs:107-112 | every point inside the border grid lies in some cell |
| RandomColorSource.CellsCover | src/sources/random_color.rs:107-112 | every in-frame pixel lies in some cell, so the `unwrap` never fails |
| RandomColorSource.FirstCell | src/sources/random_color.rs:107-110 | finds the first cell containing the point, or reports that none does |
| RandomColorSource.Period | src/sources/random_color.rs:45-46 | the frames per repaint are `update_every * fps / 1000` rounded to the nearest integer, 0 when negative; the default 1000 ms gives one repaint per `fps` frames |
| RandomColorSource.UpdateEvery | src/sources/random_color.rs:30-34 | absent means 1000; must be a number, else `InvalidOptions` |
| RandomColorSource.NewSpec | src/sources/random_color.rs:24-55 | inputs give `InvalidInputs`; bad splits or `update-every` give `InvalidOptions`; a zero period panics; otherwise the cells and the period |
| RandomColorSource.New | src/sources/random_color.rs:24-55 | the constructor builds exactly `NewSpec` |
| RandomColorSource.RandomColor.constructor | src/sources/random_color.rs:45-47 | the counter starts at 0 with the period as modulus; the cache is a zero frame of the configured size |
| RandomColorSource.RandomColor.ProvideVideoFrame | src/sources/random_color.rs:89-126 | the counter advances only on a new id; it repaints iff the id is new and the counter returned 0; after a repaint the cache equals the frame, otherwise the frame becomes the cache |
| RandomColorSource.SingleCellFillsFrame | src/sources/random_color.rs:94-101 | with no splits there is one cell, and painting it fills the frame with its colour |
| Graph.FirstIn | src/load.rs:127-128 | the first element of a listing that lies in a set |
| Graph.TopologicalMeansAcyclic | src/load.rs:127-128 | a graph with a topological order has no cycle |
| Graph.FirstSource | src/load.rs:127-128 | every non-empty set of nodes in a topologically ordered graph has a node with no input inside it |
| Graph.InputBefore | src/load.rs:133-145 | in a topological order every input comes before the node that reads it |
| Graph.FindReady | src/load.rs:127-128 | finds a node not yet done whose inputs are all done, or reports that no listed node is ready |
| Graph.StuckMeansCycle | src/load.rs:127-128 | when unfinished nodes remain and none is ready, the graph has a cycle |
| Graph.TopoSort | src/load.rs:127-128 | returns a topological order of all nodes iff the graph is acyclic |
| Load.AsSlice | src/load.rs:44-57 | one name is a one-element list, several names stay in order, and the default is empty |
| Load.VideoConfigFor | src/load.rs:69-90 | no video section gives the default; otherwise each present field overrides it through the range-checked builder, and an out-of-range field panics |
| Load.VideoConfigOf | src/load.rs:69-90 | the builder chain computes exactly `VideoConfigFor` |
| Load.EdgesOf | src/load.rs:111-125 | the graph has one vertex per declared node, and its edges are each node's declared inputs |
| Load.SinkNamesExact | src/load.rs:95-103 | a name is collected as a sink iff it is declared and its constructor is a sink |
| Load.SinkNamesDistinct | src/load.rs:95-103 | no sink name is collected twice |
| Load.CollectSinks | src/load.rs:95-103 | succeeds iff every declared type is registered, giving the sink names in visiting order; otherwise `UnknownNode` of some offending type |
| Load.ResolveInputs | src/load.rs:136-145 | succeeds iff every input is registered, giving the handles in order; otherwise `UnknownInput` |
| Load.OptionsBlock | src/load.rs:146 | a missing options block is an empty mapping |
| Load.BuildOne | src/load.rs:134-150 | one node's construction: a known type yields a handle under the node's name, with the right sink flag, or a constructor error; an unknown type yields `UnknownNode` |
| Load.ConstructAllBuilds | src/load.rs:133-151 | when every type is known, the construction pass over a topological order reports only constructor errors and panics, and on success has registered every node |
| Load.SinkHandles | src/load.rs:153-156 | one handle per sink name, in order |
| Load.ConstructOne | src/load.rs:134-150 | the loop body constructs exactly `BuildOne` |
| Load.ConstructNodes | src/load.rs:133-151 | the loop constructs a prefix of the order and behaves as `ConstructAll`: the first error aborts, and on success every node is registered |
| Load.TopologicalInputsBefore | src/load.rs:133-145 | in a topological order every node's inputs are registered before it, so `UnknownInput` never arises |
| Load.Assemble | src/load.rs:130-158 | builds the video settings, constructs the nodes in order and returns exactly one sink handle per sink name |
| Load.BuildPipeline | src/load.rs:92-159 | the checks come in the source's order: an unknown type, then no sink, then an undeclared input (a panic), then a cycle, with nothing constructed; otherwise nodes are constructed after their inputs, `UnknownInput` never results, and success returns one sink handle per sink node |

## Left out

- Reading and deserialising the pipeline file (`from_reader`, `from_str`) is outside this model.
  `Load.PipelineConfig` is the already decoded file, and `Options.Yaml` is the decoded YAML value.
- Hash-map iteration order is the `order` parameter of `Load.BuildPipeline`. When several node
  types are unknown, the order decides which one is reported.
- petgraph's `toposort` is replaced by Kahn's algorithm (`Graph.TopoSort`). It yields some
  topological order, not necessarily petgraph's. The order changes only which of several failing
  constructors is reported first.
- An input naming an undeclared node makes `vertices[input]` panic. The model checks the whole
  graph for this before sorting (`Graph.InputsDeclared`). The source panics on the first such edge
  during the same pass, before any node is built, so the observable outcome is the same panic.
- Device streams, the audio callback thread, GStreamer and the RTSP main loop are I/O and are not
  modelled. `Pipeline.Platform` supplies what they would return: the sample rate, whether a
  stream was built, whether the server started. Their failures are `System`.
- Random colours, the pulls of merge inputs, the spectra pulled by the equalizer and the
  transform itself (`realfft`) are parameters.
- `Arc`, `Mutex`, `AtomicRefCell` and atomics are left out. Every node and buffer has a single
  sequential owner, and `FrameId::new`'s global counter is the `Util.FrameIdGenerator` object.
- The circle and loudness nodes' per-tick float numerics (`sqrt`/`powi` anti-aliasing, RMS) are
  not modelled. Only their constructors' input validation is, in `Pipeline.Construct`.
- `Video.ToF`, `Video.FromF`: the byte↔float conversions are on exact reals, and f32 rounding
  is not modelled. Every `f32` is an exact `real`.
- `Spectral.Windowed`: the Hann window's coefficient function is a parameter. The cosine and the
  source's Hamming-like constants are not modelled.
- `Spectral.Stft.Compute` is a parameter-driven transform, and its √N normalisation is the
  `normalization` parameter.
- `MergeProcessor.BlendInput`: per-pixel float blending is `Blend(mode, c)` over `ToF`/`FromF`,
  not f32 arithmetic.
- `SpectrumProcessor.New`: a negative `window-size` wraps to a huge `usize` in the source, and the
  allocation aborts. A zero window gives a transform of no samples. Both are modelled as a panic.
  The transform planner's own behaviour is not modelled.
- `Spectral.Spectrum.BinFor` takes the frequency-in-range assertion (src/util/spectrum.rs:102) as a
  `requires`, since no caller in the core passes an out-of-range frequency. It also requires a
  positive sample rate: at rate 0 the source's `f * n / 0` is infinite or NaN and the cast gives
  `usize::MAX` or 0, which the model does not compute.
- `Spectral.Spectrum.Freq` requires a non-empty spectrum. The spectrum of an `N`-sample window
  always has `N / 2 + 1` bins.
- `Spectral.Slice`: at sample rate 0 with a range, the panic is modelled without its `usize::MAX`
  bin. Bin indices above `usize::MAX` are not saturated. `Spectral.SpectrumStore.Compute` and
  `SpectrumProcessor.SpectrumNode.ProvideSpectrum` cut as written, dividing by the spectrum
  length. `Spectral.SliceCorrected`, `Spectral.BinForCorrected` and `Spectral.FreqCorrected` are
  the window-length versions, and nothing in the pipeline uses them.
- `EqualizerProcessor.ProvideVideoFrame`: when it panics, the model leaves the frame unchanged.
  The source has already painted the pixels visited before the offending one. A release build
  wraps the subtraction instead of panicking, leaving that column unlit; that is not modelled.
- The rtsp sink's inherent `start(&self)` signature differs from the trait's `&mut self`. The
  model gives every node the trait's behaviour (`Pipeline.Start`).
- `fetch_inc` is called with an ordering argument that `FrameCounter::fetch_inc` does not take.
  The model uses the plain read-then-increment.
- `LastFrameId`/`store_if_not_eq` are not part of this model's source. They are modelled as
  `FrameId::update` (`Util.LastFrameId.Update`): store if different, and return whether it stored.
- `Util.FrameIdGenerator.Get`: the source's `fetch_add` on an `AtomicUsize` wraps at
  `usize::MAX`, after which an id could equal the default id 0. The model's counter is unbounded,
  which is why its "no generated id is the default" holds. It would take 2^64 frames to wrap.
- `node_ref`, imported in src/pipeline.rs but defined nowhere, is not part of this model.

## Findings

| source | as written | input that shows it | evidently intended | confidence | as-written member | corrected member |
|---|---|---|---|---|---|---|
| src/util/inputs.rs:82-113 | the pair validator zips the inputs with the two validators, which consumes a third input before the leftover check, so a third input is silently accepted | inputs `[a, b, c]` with `a`, `b` passing their validators: `Ok((a, b))` | exactly two inputs, else `InvalidInputs` | not executed | Inputs.ValidatePairAsWritten, Inputs.ThirdInputIgnored | Inputs.ValidatePair |
| src/processors/equalizer.rs:41 | `frame_height - bar_height` with `bar_height` from an unclamped amplitude | amplitude 1.2 on a 720-row frame gives a bar of 864, so the subtraction underflows (a panic in a debug build, a wrap in release) | the bar is clipped to the frame: a whole column lit | not executed | EqualizerProcessor.LitAsWritten, EqualizerProcessor.TallBarUnderflows, EqualizerProcessor.ProvideVideoFrame | EqualizerProcessor.LitIsBottomRows, EqualizerProcessor.PaintedPixel |
| src/util/spectrum.rs:59-62 | `bin_for` is given the spectrum length `N/2 + 1` as the transform size, so bins are computed at about half the right index | window 4096 at 48 kHz, 1000 Hz: bin 43 (≈ 504 Hz) where bin 85 (≈ 996 Hz) is meant | the transform size `N` (the window length) | not executed | Spectral.BinsAsWrittenMisplaced, Spectral.DefaultRangeAsWritten, Spectral.Slice | Spectral.SliceCorrected, Spectral.BinForCorrected, Spectral.FreqCorrected |
