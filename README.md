# go-opus decoder wrapper, modelled in Dafny

This project models `opusDecoder`, the Go wrapper in `opus.go` around the libopus
decoder (the Opus codec of RFC 6716). The wrapper owns one libopus decoder state.
It refuses a second initialisation and any channel count other than 1 or 2. It runs
a fixed, ordered chain of checks before each of its six decode entry points calls
libopus. It sizes the frame from the output slice's capacity and maps libopus's
status codes to errors or sample counts.

Files:

- `opus_engine.dfy` (module `OpusEngine`): the libopus interface the wrapper calls.
  The engine is a datatype of function values: `getSize`, `init`, `decode`,
  `decodeFloat` and `lastPacketDuration`. Its decoder state is represented by the
  sequence of calls it has received since `opus_decoder_init`, so each of its
  answers is an arbitrary function of that history. `Honours` is the part of the
  libopus contract the wrapper relies on:
  - a state block exists for one and for two channels;
  - a decode call writes at most `frame_size * channels` samples;
  - a non-negative result n means it wrote exactly `n * channels` samples.

  `ToInt32` is Go's conversion to `C.int` / `C.opus_int32`, with its wrap-around.
- `opus_decoder.dfy` (module `GoOpus`): the error taxonomy and the decoder's state.
  Its functions say what each operation does (`InitStep`, `Validate`,
  `EngineRequest`, `DecodeStep`, `Samples`, `DurationReply`). The class
  `OpusDecoder` has the struct's fields:
  - `initialized` for `p != nil`;
  - `memSize` for `len(mem)`;
  - `sampleRate`;
  - `channels`;
  - `calls`, the engine state held in `mem`.

  Every method is proved to do what those functions say. An output slice is an
  array, whose length is the slice's capacity, together with a separate length
  `pcmLen <= pcm.Length`. `NewDecoder` builds the zero value and calls `Init`.
- `opus_properties.dfy` (module `GoOpusProperties`): `Step` and `Run` over
  sequences of client calls. It also holds the lemmas for the lifecycle, the check
  order, what reaches the engine, and the result mapping.

Everything is proved for every engine that satisfies `Honours`. Decoding is
deterministic by construction, because engine answers are functions of the call
history.

Three behaviours of opus.go that a caller may not expect, all kept by the model:

- A failed engine init leaves the handle set (opus.go:75-80). `NewDecoder` then
  returns no decoder. But a decoder initialised through `Init` directly counts as
  initialised, and a second `Init` is rejected. Its decode calls pass every check
  and still reach the engine, on a state block the engine refused to initialise.
- When the engine returns a negative status, nothing in the wrapper prevents the
  engine from having written into the buffer. The model stores whatever the
  engine wrote.
- The frame size comes from the capacity, so the engine may write past
  `len(pcm)` up to `cap(pcm)`. The model allows this.

## Model

| member | source | states |
|---|---|---|
| `OpusEngine.ToInt32` | opus.go:104-110 | Go's conversion to a 32-bit C integer: the result is in the int32 range and congruent modulo 2^32, equals the input when it already fits, and never exceeds a non-negative input |
| `GoOpus.Validate` | opus.go:87-102 | the decode checks in their order: NotInitialized iff the handle is unset, EmptyInput iff set and a packet-taking variant got no data, EmptyOutput iff those pass and len(pcm)==0, MisalignedBuffer iff those pass and cap(pcm) is not a multiple of the channel count; no error iff all pass; never an engine error |
| `GoOpus.EngineRequest` | opus.go:104-110 | the packet is the null packet exactly for concealment and otherwise the data with its int32 length; the FEC flag is set exactly for the FEC variants; the frame size is at most cap/channels and equal to it when it fits in 32 bits |
| `GoOpus.FromEngine` | opus.go:112-116 | a negative engine result is an error carrying that code; a non-negative one is the count, unchanged |
| `GoOpus.SamplesFitCapacity` | opus.go:100-110 | for an engine keeping its contract, the samples any decode variant stores never exceed the output capacity, because the frame is cap/channels |
| `GoOpus.CountMatchesSamples` | opus.go:104-117 | for an engine keeping its contract, a decode that succeeds (either sample format, any variant) returns a count that times the channel count equals the number of samples stored, within the capacity |
| `GoOpus.Overlay` | opus.go:104-110 | the buffer after the engine stores its samples: the first slots hold them, every other slot keeps its old value, and the length is unchanged |
| `GoOpus.DurationReply` | opus.go:312-316 | no error iff the engine's status is OPUS_OK, in which case the sample count is returned; otherwise 0 and EngineError(status) |
| `GoOpus.OpusDecoder.constructor` | opus.go:41-47 | the zero value: handle unset, all fields zero, no engine history |
| `GoOpus.OpusDecoder.Init` | opus.go:62-83 | the new state and error are those of InitStep: AlreadyInitialized with no change; InvalidChannelCount with no change; otherwise rate, channels, state block of getSize(channels) and handle set before the engine's init, whose non-zero status is reported as EngineError |
| `GoOpus.OpusDecoder.CallEngine` | opus.go:104-110 | one engine call: it is appended to the engine history, its samples are stored at the start of the buffer with the rest untouched, and its result is returned |
| `GoOpus.OpusDecoder.Decode` | opus.go:87-117 | int16 decode: state, count and error are those of DecodeStep with the plain variant (count 0 on error, the engine's count otherwise); the buffer gains exactly the engine's samples and nothing on a failed check; on success n*channels fits cap(pcm) and the first n*channels slots hold the decoded samples |
| `GoOpus.OpusDecoder.DecodeFloat32` | opus.go:121-151 | as Decode, through the float entry point of the engine, recorded as a float call; on success the first n*channels slots hold the decoded samples |
| `GoOpus.OpusDecoder.DecodeFEC` | opus.go:168-198 | int16 decode with the FEC flag set; same checks; returns only the error (none for any non-negative engine result) |
| `GoOpus.OpusDecoder.DecodeFECFloat32` | opus.go:203-233 | as DecodeFEC through the float entry point |
| `GoOpus.OpusDecoder.DecodePLC` | opus.go:247-273 | int16 concealment: checks only handle, non-empty output and alignment, passes the null packet with FEC off, returns only the error |
| `GoOpus.OpusDecoder.DecodePLCFloat32` | opus.go:277-303 | as DecodePLC through the float entry point |
| `GoOpus.OpusDecoder.LastPacketDuration` | opus.go:307-317 | (samples, err) is DurationReply of the engine's answer for the current history: no error iff OPUS_OK, then its count; otherwise 0 and EngineError(status); no handle check, so the engine is asked even about an empty history |
| `GoOpus.NewDecoder` | opus.go:51-60 | returns a fresh, initialised decoder iff Init reported no error, and no decoder with Init's error otherwise |
| `GoOpusProperties.StepKeepsConsistent` | opus.go:62-83 | every call keeps the decoder invariant: unset means the zero value; set means 1 or 2 channels, getSize(channels) bytes, and an engine history headed by its init call |
| `GoOpusProperties.Run` | opus.go:62-303 | any sequence of calls keeps the decoder invariant and yields one reply per call |
| `GoOpusProperties.InitRejectsSecondInit` | opus.go:63-65 | Init on a set handle is AlreadyInitialized and changes nothing |
| `GoOpusProperties.InitRejectsChannelCount` | opus.go:67-69 | Init with channels not 1 or 2 is InvalidChannelCount and leaves the zero value: no allocation, no engine call |
| `GoOpusProperties.InitCommitsBeforeEngine` | opus.go:71-80 | past the checks, Init records rate and channels, allocates exactly getSize(channels), sets the handle whatever the engine answers, reports a non-zero engine status as EngineError, and any further Init is AlreadyInitialized |
| `GoOpusProperties.NewDecoderSucceedsIff` | opus.go:51-60 | NewDecoder yields a decoder iff channels is 1 or 2 and the engine's init returns 0 |
| `GoOpusProperties.RejectedDecodeTouchesNothing` | opus.go:88-102 | a decode that fails a check returns that check's error, leaves the state (and so the engine) untouched and stores nothing in the buffer |
| `GoOpusProperties.AcceptedDecodeCallsEngine` | opus.go:104-116 | a decode that passes its checks makes exactly one engine call with frame ToInt32(cap/channels), FEC flag only for FEC, null packet only for PLC, and maps a negative answer to EngineError and any other to the count |
| `GoOpusProperties.ReplyMapping` | opus.go:193-197 | the FEC and PLC variants report the same error as Decode would and drop the count; Decode returns the count or 0 with the error |
| `GoOpusProperties.PlcSkipsInputCheck` | opus.go:247-258 | concealment never reports EmptyInput and its checks do not depend on any packet |
| `GoOpusProperties.InitializedStaysFixed` | opus.go:62-83 | once the handle is set, no sequence of calls unsets it or changes the rate, channel count or state block, and the engine history only grows |
| `GoOpusProperties.EveryLaterInitRejected` | opus.go:63-65 | on a decoder whose handle is set, every Init in any sequence of calls is AlreadyInitialized |
| `GoOpusProperties.UninitializedRejectsDecodes` | opus.go:88-90 | a decoder never initialised stays the zero value and answers every decode operation with NotInitialized |
| `GoOpusProperties.HistoryCountsAcceptedDecodes` | opus.go:104-110 | on a set-up decoder the engine history grows by exactly one call per decode operation that passes its checks |

## Left out

- The Opus decoding algorithm inside libopus (range decoding, SILK/CELT synthesis, concealment and FEC signal processing of RFC 6716). It is a foreign C library, modelled only as the functions of `OpusEngine.Engine` and the contract `Honours`.
- The sample values libopus writes, including the regression fixtures in opus_test.go. They are decided by the engine; float samples are kept as 32-bit patterns with no arithmetic.
- The cgo link directives and the C shim `bridge_decoder_get_last_packet_duration` (opus.go:8-32). These are build configuration and a foreign call; the query is the engine's `lastPacketDuration`.
- `unsafe.Pointer` aliasing of `mem` as the C struct, and memory management by the Go garbage collector. The state block is modelled by its size.
- The `Decoder` interface (opus.go:37-39). `NewDecoder` returns the class itself.
- The texts of the error messages. Both "target buffer" and "output buffer" misalignment messages are `MisalignedBuffer`.
- The empty `main` (opus.go:319-321) and all file I/O of opus_test.go.
- Concurrency. Every call is one atomic step; the wrapper has no locking of its own.
- Decodes after a failed engine init: `Honours` assumes libopus keeps its write bound and its count-to-samples relation even on a state block it refused to initialise. Only `Init` called directly can reach this state, because `NewDecoder` discards such a decoder.
- The Go panics that `Honours` excludes: a state block of size 0 would make `&dec.mem[0]` fail.
- `GoOpus.OpusDecoder.LastPacketDuration`: on a decoder that was never initialised, libopus receives a nil handle. The model hands the engine the empty history and does not model what libopus does with a null pointer.
