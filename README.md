# nnstreamer core, modelled in Dafny

This project models three parts of nnstreamer, the GStreamer plugin set for neural-network pipelines, and proves properties of the model.

- **tensor_converter** turns media streams into tensor streams.
  - It negotiates caps. Video, audio, text, octet and tensor streams are handled natively; custom and external converters cover the rest. The result is a tensors config that must agree with the `input-dim`/`input-type` properties.
  - It runs the chain function on each incoming buffer. Depending on the media it strips row padding, fits text to the frame size, splits octet streams into tensors, strips flexible headers, or hands the buffer to a converter.
  - It rebases byte-format segments once and synthesises missing timestamps.
  - It either pushes one tensor buffer directly, or aggregates frames per client in a FIFO (the GstAdapter) and pushes full chunks until downstream answers a push with anything but OK.
  - The element is the class `Converter.TensorConverter`. Its chain steps are proved equal to a functional specification (`ConvChain.ChainSpec`), and the lemmas in `ConvChainProps` are proved about that specification.
- **The bounding-box decoder** (`BoxDecoder.BoundingBox`) covers:
  - option handling;
  - non-maximum suppression (`BoxNms.Nms`);
  - the centroid tracker: removal of disappeared centroids, a distance table, greedy nearest-first matching and registration of new tracks. It is specified as a pure state update (`BoxTracker.UpdateCentroids`), and the class method is proved to perform exactly that update in place;
  - drawing box outlines and lines into an RGBA frame, proved to paint exactly the outline pixels and nothing else (the label sprites drawn above each box when labels are in use are not modelled).
- **The SNPE tensor filter's configuration** (`SnpeFilter`) covers:
  - the `custom` property parser (`Runtime`, `OutputTensor`, `OutputType`, `InputType`);
  - the resolution of element types;
  - the dimension and stride layout.

GLib string helpers appear as `GStrings`: `g_strsplit`, `g_strjoinv`, `g_strstrip` and `g_ascii_strcasecmp`.

Calls into code outside these files are parameters of the model. Their results come in through records: `CapsEnv` and `ChainEnv` for the converter, and `OptionEnv` for the decoder's setters.

## Model

| member | source | states |
|---|---|---|
| Converter.ModeStringSplit | gst/nnstreamer/elements/gsttensor_converter.c:469-483 | a `mode` value `name:option` without further colons splits into exactly the mode name and its option |
| Converter.TensorConverter.PropInfo | gst/nnstreamer/elements/gsttensor_converter.c:419-455 | the tensors info the properties describe has as many tensors as the last dimension/type string gave, in static format |
| Converter.TensorConverter.constructor | gst/nnstreamer/elements/gsttensor_converter.c:331-375 | a new element has default frames-per-tensor and set-timestamp, no mode, no property tensors, no configuration, no segment, no stored timestamp and no FIFOs |
| Converter.TensorConverter.SetInputDimension | gst/nnstreamer/elements/gsttensor_converter.c:419-438 | the given dimensions fill the first slots, every later slot gets all-zero dimensions, and the tensor count becomes the number of dimensions given |
| Converter.TensorConverter.SetInputType | gst/nnstreamer/elements/gsttensor_converter.c:439-456 | the given types fill the first slots, every later slot gets the end type, and the tensor count becomes the number of types given |
| Converter.TensorConverter.SetFramesPerTensor | gst/nnstreamer/elements/gsttensor_converter.c:457-460 | frames-per-tensor takes the new value |
| Converter.TensorConverter.SetSetTimestamp | gst/nnstreamer/elements/gsttensor_converter.c:461-464 | set-timestamp takes the new value |
| Converter.TensorConverter.SetMode | gst/nnstreamer/elements/gsttensor_converter.c:469-503 | with fewer than two colon-separated parts nothing but the callback changes; `custom-code` (case-insensitive) selects custom-code mode and looks the option up among registered callbacks; `custom-script` selects script mode with python3 as the framework; any other name keeps the mode and records the option |
| Converter.TensorConverter.Reset | gst/nnstreamer/elements/gsttensor_converter.c:1369-1379 | every FIFO is emptied and no key is dropped; the segment flags are cleared, the segment is reset to time format and the stored timestamp becomes none |
| Converter.TensorConverter.SinkSegment | gst/nnstreamer/elements/gsttensor_converter.c:617-641 | the segment is stored and marked present; a time segment is forwarded and succeeds as the push does; a bytes segment is consumed and marks a rebase as needed; any other format fails |
| Converter.TensorConverter.FlushStop | gst/nnstreamer/elements/gsttensor_converter.c:614-616 | flush-stop resets the element exactly as reset does |
| Converter.TensorConverter.ParseCaps | gst/nnstreamer/elements/gsttensor_converter.c:2190-2327 | the element's media type, config and configured flag change only when negotiation commits, and then to the negotiated values; frame size, padding flag and external converter are always taken from the parse; runs the corrected video parse that clears the padding flag (see Findings) |
| Converter.TensorConverter.ParseByMedia | gst/nnstreamer/elements/gsttensor_converter.c:2201-2289 | the per-media parse the element performs is the one the specification chooses for the caps' media type and converter mode; runs the corrected video parse that clears the padding flag (see Findings) |
| Converter.TensorConverter.PrepareBuffer | gst/nnstreamer/elements/gsttensor_converter.c:1059-1305 | the buffer handed on (or the flow error) is what the per-media preparation specifies for the element's settings and state |
| Converter.TensorConverter.PrepareVideoBuffer | gst/nnstreamer/elements/gsttensor_converter.c:1060-1123 | video preparation, including row-padding removal, computes the specified buffer, frame count and config |
| Converter.TensorConverter.PrepareTextBuffer | gst/nnstreamer/elements/gsttensor_converter.c:1128-1157 | text preparation computes the specified fitted buffer |
| Converter.TensorConverter.StripHeaders | gst/nnstreamer/elements/gsttensor_converter.c:1169-1237 | tensor preparation parses, checks and strips the per-memory headers as specified |
| Converter.TensorConverter.ChainSegment | gst/nnstreamer/elements/gsttensor_converter.c:754-783 | the element's stream state after the segment step is the specified one |
| Converter.TensorConverter.ChainTimestamp | gst/nnstreamer/elements/gsttensor_converter.c:787-843 | the stamped buffer and the stored old timestamp are the specified ones |
| Converter.TensorConverter.ChainOctet | gst/nnstreamer/elements/gsttensor_converter.c:847-889 | the octet split of a multi-tensor buffer is the specified one |
| Converter.TensorConverter.ChainFlexTensor | gst/nnstreamer/elements/gsttensor_converter.c:893-934 | the flexible-header buffer is the specified one |
| Converter.TensorConverter.PushBuffer | gst/nnstreamer/elements/gsttensor_converter.c:938-955 | one push appends at most the one specified buffer to the output and returns the specified flow |
| Converter.TensorConverter.ChainChunk | gst/nnstreamer/elements/gsttensor_converter.c:959-1022 | pushing into the client's FIFO and draining it leaves the specified state and flow |
| Converter.TensorConverter.DrainFifo | gst/nnstreamer/elements/gsttensor_converter.c:983-1019 | the drain loop ends in the state and flow of the recursive drain specification |
| Converter.TensorConverter.TakeAndPush | gst/nnstreamer/elements/gsttensor_converter.c:989-1018 | one iteration takes exactly one chunk from the FIFO and pushes it as specified |
| Converter.TensorConverter.Chain | gst/nnstreamer/elements/gsttensor_converter.c:1028-1330 | the whole chain function leaves the settings untouched and the stream state and flow equal to the chain specification |
| Converter.TensorConverter.ForwardBuffer | gst/nnstreamer/elements/gsttensor_converter.c:1307-1324 | segment, timestamp and push-or-aggregate together give the specified state and flow |
| Converter.TensorConverter.StampBuffer | gst/nnstreamer/elements/gsttensor_converter.c:1307-1315 | the segment and timestamp steps give the specified state and stamped buffer |
| Converter.TensorConverter.Dispatch | gst/nnstreamer/elements/gsttensor_converter.c:1317-1324 | a buffer holding frames-per-tensor frames is pushed directly; any other count goes through the FIFO |
| ConvCaps.CommittedConfigValid | gst/nnstreamer/elements/gsttensor_converter.c:2308-2326 | a committed config is valid, and it agrees with the property info whenever that info is valid |
| ConvCaps.CustomModeIsAnyMedia | gst/nnstreamer/elements/gsttensor_converter.c:2201-2289 | in a custom mode a committed config is of any-media type, and frame size and padding flag are left as they were |
| ConvCaps.VideoCapsNegotiated | gst/nnstreamer/elements/gsttensor_converter.c:2190-2327 | video caps commit exactly a one-tensor config with frames-per-tensor in the fourth dimension, provided it is valid and agrees with the properties; unknown formats and planar formats with unaligned rows never commit; runs the corrected video parse that clears the padding flag (see Findings) |
| ConvCaps.TextCapsNegotiated | gst/nnstreamer/elements/gsttensor_converter.c:2190-2327 | text caps never commit without an input-dim text size; a commit is one uint8 tensor of that size by frames-per-tensor, with that frame size |
| ConvMedia.VideoTensor | gst/nnstreamer/elements/gsttensor_converter.c:1482-1538 | the video tensor has one frame and the end type exactly for unsupported formats |
| ConvMedia.ParseVideoOutcome | gst/nnstreamer/elements/gsttensor_converter.c:1444-1571 | parse_video succeeds exactly for known formats that are not planar with an unaligned width, and then yields one static tensor of one frame, the info's frame size and its framerate |
| ConvMedia.ParseVideoAsWritten | gst/nnstreamer/elements/gsttensor_converter.c:1547-1549 | as written, parse_video can set the padding flag but never clears it, so a flag set by earlier caps survives |
| ConvMedia.VideoTensorHoldsOneFrame | gst/nnstreamer/elements/gsttensor_converter.c:1482-1538 | a packed video tensor's byte size is bytes-per-pixel times width times height |
| ConvMedia.VideoTensorValid | gst/nnstreamer/elements/gsttensor_converter.c:1482-1538 | the video tensor is valid once its frame axis is set to a positive count |
| ConvMedia.ThreeTimesUnaligned | gst/nnstreamer/elements/gsttensor_converter.c:1409-1433 | three-byte pixels keep a width that is not a multiple of 4 unaligned |
| ConvMedia.PaddingFlagMeansUnalignedRows | gst/nnstreamer/elements/gsttensor_converter.c:1547-1560 | with the corrected flag, padding is marked for removal only when the row size is not a multiple of 4 |
| ConvMedia.StickyPaddingFlagBreaksAlignment | gst/nnstreamer/elements/gsttensor_converter.c:1547-1549 | as written, renegotiating from RGB width 14 to RGB width 16 keeps the padding flag set although rows are aligned |
| ConvMedia.RenegotiationClearsPaddingFlag | gst/nnstreamer/elements/gsttensor_converter.c:1547-1549 | the corrected parse clears the flag for aligned rows even when it was set before |
| ConvMedia.ParseAudio | gst/nnstreamer/elements/gsttensor_converter.c:1582-1659 | parse_audio never touches the padding flag |
| ConvMedia.ParseAudioOutcome | gst/nnstreamer/elements/gsttensor_converter.c:1582-1659 | parse_audio succeeds exactly for supported sample formats, with the rate as framerate, the caps' bytes per frame as frame size and channels times sample size as the tensor size |
| ConvMedia.ParseText | gst/nnstreamer/elements/gsttensor_converter.c:1670-1730 | parse_text never touches the padding flag |
| ConvMedia.ParseTextOutcome | gst/nnstreamer/elements/gsttensor_converter.c:1670-1730 | parse_text succeeds exactly for utf8 (case-insensitive) with a positive input-dim size, giving one uint8 tensor of that size |
| ConvMedia.ParseOctet | gst/nnstreamer/elements/gsttensor_converter.c:1741-1823 | parse_octet never touches the padding flag |
| ConvMedia.ParseOctetFromProperties | gst/nnstreamer/elements/gsttensor_converter.c:1741-1823 | with valid properties, octet parsing uses them as the config, their total size as frame size and the caps framerate; it fails only for several tensors with several frames |
| ConvMedia.ParseOctetFlexible | gst/nnstreamer/elements/gsttensor_converter.c:1741-1823 | without properties but with a flexible peer, octet parsing gives a flexible one-byte tensor and keeps the frame size; it fails with several frames |
| ConvMedia.ParseOctetUnconfigured | gst/nnstreamer/elements/gsttensor_converter.c:1741-1823 | without properties and without a valid peer config, octet parsing fails |
| ConvMedia.ParseTensor | gst/nnstreamer/elements/gsttensor_converter.c:1834-1879 | parse_tensor never touches the padding flag |
| ConvMedia.ParseTensorOutcome | gst/nnstreamer/elements/gsttensor_converter.c:1834-1879 | parse_tensor fails only with several frames per tensor; it uses the property info when valid and a one-byte tensor otherwise |
| ConvRegistry.RegisterSubplugin | gst/nnstreamer/elements/gsttensor_converter.c:2485 | registration succeeds exactly for a new name and then adds that one entry; a failed registration changes nothing |
| ConvRegistry.UnregisterSubplugin | gst/nnstreamer/elements/gsttensor_converter.c:2505 | unregistration succeeds exactly for a registered name, removes it and keeps all other entries |
| ConvRegistry.RegisterExternal | gst/nnstreamer/elements/gsttensor_converter.c:2369-2393 | an external converter is registered exactly when it has a name and all three required methods and the name is new |
| ConvRegistry.UnregisterExternal | gst/nnstreamer/elements/gsttensor_converter.c:2398-2402 | unregistering removes exactly that name |
| ConvRegistry.RegistrationKeepsConvertersValid | gst/nnstreamer/elements/gsttensor_converter.c:2369-2402 | registering and unregistering keep every registered converter valid |
| ConvRegistry.CustomRegister | gst/nnstreamer/elements/gsttensor_converter.c:2473-2493 | a custom callback registers with 0 exactly when the name is non-empty, the function is present and the name is new; otherwise -EINVAL and no change |
| ConvRegistry.CustomUnregister | gst/nnstreamer/elements/gsttensor_converter.c:2500-2513 | unregistration returns 0 exactly for a registered name, else -EINVAL, and the name is gone afterwards |
| ConvRegistry.CustomRegisterUnregister | gst/nnstreamer/elements/gsttensor_converter.c:2473-2513 | registering a new callback and unregistering it both succeed and restore the table |
| ConvRegistry.FirstMatch | gst/nnstreamer/elements/gsttensor_converter.c:2408-2451 | the search stops at the first listed converter whose name or one of whose caps names is the media type |
| ConvRegistry.FindExternalConverter | gst/nnstreamer/elements/gsttensor_converter.c:2408-2451 | the loop returns the converter at the first match, or none when no listed converter matches |
| ConvRegistry.FirstMatchAt | gst/nnstreamer/elements/gsttensor_converter.c:2420-2445 | an index that no earlier entry matches and that itself matches is the first match |
| ConvRegistry.ParseCustomLookup | gst/nnstreamer/elements/gsttensor_converter.c:1889-1966 | without a preset converter, custom parsing succeeds exactly when a converter is found and a config is available (a fixed peer config or the converter's own), and a script's open call does not fail; on failure no converter is kept |
| ConvRegistry.ParseCustomKeepsConverter | gst/nnstreamer/elements/gsttensor_converter.c:1889-1966 | in custom-code mode or with a converter already chosen, parsing keeps that converter and uses a fixed peer config when there is one |
| ConvBuffers.ConcatAppend | gst/nnstreamer/elements/gsttensor_converter.c:866-875 | appending a memory appends its bytes to the buffer's payload |
| ConvBuffers.Raw | gst/nnstreamer/elements/gsttensor_converter.c:1088-1120 | a buffer built from bytes has exactly those bytes as payload and their count as size |
| ConvBuffers.FlexTag | gst/nnstreamer/elements/gsttensor_converter.c:911-922 | the flexible header's media tag is the input media for video, audio, text and octet, and tensor for everything else |
| ConvFifo.Push | gst/nnstreamer/elements/gsttensor_converter.c:981 | pushing into a FIFO appends the bytes at its end |
| ConvFifo.Take | gst/nnstreamer/elements/gsttensor_converter.c:1010 | taking n bytes removes exactly the first n bytes |
| ConvFifo.Prev | gst/nnstreamer/elements/gsttensor_converter.c:989-990 | the previous timestamp, when there is one, belongs to a pushed buffer and comes with the distance from that buffer's start |
| ConvFifo.PrevAfterPushAndTake | gst/nnstreamer/elements/gsttensor_converter.c:981-1010 | after a push and a take ending inside the pushed buffer, the previous timestamp is that buffer's, at the distance taken from it |
| ConvChain.Stride | gst/nnstreamer/elements/gsttensor_converter.c:1101-1106 | a padded row stride is a multiple of 4 and lies strictly between the row size and the row size plus 4 |
| ConvChain.Shaped | gst/nnstreamer/elements/gsttensor_converter.c:942-951 | shaping a buffer for the source pad can only fail with not-negotiated/abort |
| ConvChain.PushOne | gst/nnstreamer/elements/gsttensor_converter.c:938-955 | a push changes nothing but the output, to which it appends at most one buffer; when a buffer goes out the result is downstream's answer to that push, passed on as it is, and when none goes out the element stops |
| ConvChain.TakeOut | gst/nnstreamer/elements/gsttensor_converter.c:1010-1016 | a taken chunk holds the first out-size bytes of the FIFO and the scaled duration |
| ConvChain.DrainStep | gst/nnstreamer/elements/gsttensor_converter.c:984-1019 | one loop iteration shortens only the client's FIFO by one chunk and appends at most one output buffer; its result is downstream's answer when the buffer goes out, and a stop otherwise |
| ConvChain.Drain | gst/nnstreamer/elements/gsttensor_converter.c:984-1019 | draining keeps the client's FIFO and the config; a drain that does not end OK has pushed at least once and returns the last push's answer, or stops the element |
| ConvChain.DrainUnfold | gst/nnstreamer/elements/gsttensor_converter.c:984-1019 | the drain is one step followed by a drain of the rest while the push succeeds |
| ConvChainProps.VideoPaddingRemoved | gst/nnstreamer/elements/gsttensor_converter.c:1088-1114 | with padding removal the output holds exactly the unpadded rows of the input, row size times height bytes, with stride the row size rounded up to 4 |
| ConvChainProps.VideoRowCopied | gst/nnstreamer/elements/gsttensor_converter.c:1101-1114 | row r of the output is the row-size bytes found at r times the stride in the input |
| ConvChainProps.TextFitted | gst/nnstreamer/elements/gsttensor_converter.c:1128-1157 | a text buffer becomes exactly frame-size bytes: the input's bytes, zero-filled or cut off |
| ConvChainProps.OctetFrames | gst/nnstreamer/elements/gsttensor_converter.c:1158-1168 | a static octet buffer is accepted exactly when its size is a multiple of the frame size, counting that many frames; a flexible one is one frame of its own size |
| ConvChainProps.TensorStripped | gst/nnstreamer/elements/gsttensor_converter.c:1169-1237 | a tensor buffer is accepted exactly when its headers parse and agree with the config (or there are no properties); the payload is kept, the headers are removed and the config is updated from them |
| ConvChainProps.AnyDispatch | gst/nnstreamer/elements/gsttensor_converter.c:1238-1294 | the any-media path succeeds exactly when the custom callback or external converter exists and returns a buffer; that buffer is forwarded with its own size, without adding headers to flexible output |
| ConvChainProps.OctetShares | gst/nnstreamer/elements/gsttensor_converter.c:866-875 | splitting an octet buffer gives one memory per tensor; memory i is the bytes from the sum of the previous sizes, and together they are the payload's prefix |
| ConvChainProps.FlexHeaders | gst/nnstreamer/elements/gsttensor_converter.c:893-934 | flexible output succeeds exactly when there are enough memories, and gives each memory its data and a header with its tensor info and media tag |
| ConvChainProps.DrainStops | gst/nnstreamer/elements/gsttensor_converter.c:984-985 | a drain returning OK leaves less than one chunk in the FIFO |
| ConvChainProps.DrainAnsweredOk | gst/nnstreamer/elements/gsttensor_converter.c:984-1019 | every push of the aggregation loop but the last was answered OK by downstream |
| ConvChainProps.DrainKeepsOthers | gst/nnstreamer/elements/gsttensor_converter.c:984-1019 | draining changes only the client's FIFO and the output |
| ConvChainProps.DrainConserves | gst/nnstreamer/elements/gsttensor_converter.c:984-1019 | the FIFO's bytes before a drain are the taken chunks, each exactly out-size bytes, followed by what remains |
| ConvChainProps.DrainSendsTaken | gst/nnstreamer/elements/gsttensor_converter.c:1010-1018 | for plain pushes, the output gains exactly the taken chunks, in order, each with the scaled duration |
| ConvChainProps.ChunkConserves | gst/nnstreamer/elements/gsttensor_converter.c:975-1019 | aggregation pushes the input into the client's FIFO and drains it; old bytes plus new bytes equal the pushed chunks plus what remains, and on OK less than a chunk remains |
| ConvChainProps.ChunkDurationScaled | gst/nnstreamer/elements/gsttensor_converter.c:975-979 | a chunk's duration is the input duration times frames-out divided by frames-in, rounded down |
| ConvChainProps.SegmentRebased | gst/nnstreamer/elements/gsttensor_converter.c:754-783 | a needed rebase emits one time segment starting at the byte offset converted to time (or 0 without a framerate) and is not repeated; otherwise nothing changes |
| ConvChainProps.TimestampRules | gst/nnstreamer/elements/gsttensor_converter.c:787-843 | only the stamped buffer's pts and duration may change, and only when set-timestamp is on and they are invalid; the duration comes from the framerate; pts follows the old timestamp plus the duration, or the segment start, or the clock without a framerate; the result is remembered as the old timestamp |
| ConvChainProps.DurationFromRate | gst/nnstreamer/elements/gsttensor_converter.c:799-808 | the synthesised duration is frames times the frame period, rounded down |
| ConvChainProps.DrainCountsPushes | gst/nnstreamer/elements/gsttensor_converter.c:984-1019 | unless the aggregation loop stops the element, every block it takes goes out as one buffer |
| ConvChainProps.ChunkErrorFromDownstream | gst/nnstreamer/elements/gsttensor_converter.c:975-1019 | an error from the aggregation step is downstream's answer to the last push of this call: with n buffers pushed, to push n - 1 |
| ConvChainProps.ForwardErrorFromDownstream | gst/nnstreamer/elements/gsttensor_converter.c:1317-1324 | an error from forwarding a prepared buffer is downstream's error answer to one of the pushes this call made (push j with j below the number of events it sent) |
| ConvChainProps.ChainErrorChangesNothing | gst/nnstreamer/elements/gsttensor_converter.c:1059-1329 | an error result of chain either leaves every field of the element as it was (an empty buffer, a failed per-media step) or is downstream's error answer to one of the pushes this call made (push j with j below the number of events it sent) |
| ConvChainProps.ChainGuards | gst/nnstreamer/elements/gsttensor_converter.c:1039-1045 | an empty buffer is an error and an unconfigured element aborts, both without state change |
| ConvCopy.UnpaddedRow | gst/nnstreamer/elements/gsttensor_converter.c:1108-1114 | each row of the unpadded bytes is the row read at its stride offset |
| ConvCopy.CopyRow | gst/nnstreamer/elements/gsttensor_converter.c:1110-1112 | one row copy appends exactly the source row to the written prefix |
| ConvCopy.RemovePadding | gst/nnstreamer/elements/gsttensor_converter.c:1088-1114 | the copy loop produces exactly the unpadded rows |
| ConvCopy.CopyUnpaddedRow | gst/nnstreamer/elements/gsttensor_converter.c:1109-1113 | copying one row keeps the loop invariant for the next row |
| ConvCopy.Resized | gst/nnstreamer/elements/gsttensor_converter.c:1128-1157 | the resized text has the frame size, the input's bytes where they exist and zeros after |
| ConvCopy.ResizeText | gst/nnstreamer/elements/gsttensor_converter.c:1128-1157 | the text copy produces exactly the resized bytes |
| ConvCopy.SharesAt | gst/nnstreamer/elements/gsttensor_converter.c:866-875 | share i is the bytes at the sum of the earlier sizes |
| ConvCopy.NextShare | gst/nnstreamer/elements/gsttensor_converter.c:866-875 | each loop step appends the next share at the running offset |
| ConvCopy.SharesConcat | gst/nnstreamer/elements/gsttensor_converter.c:866-875 | the shares together are the payload up to the total size |
| ConvCopy.SliceOctet | gst/nnstreamer/elements/gsttensor_converter.c:866-875 | the slicing loop produces exactly the shares |
| ConvCopy.WithHeadersKeepsPayload | gst/nnstreamer/elements/gsttensor_converter.c:906-929 | adding flexible headers keeps every memory's data and records each tensor's info |
| Clock.ScaleInt | gst/nnstreamer/elements/gsttensor_converter.c:978 | gst_util_uint64_scale_int rounds v times num over denom down, and gives the none value for invalid arguments |
| TensorTypes.ElementSize | gst/nnstreamer/elements/gsttensor_converter.c:1485-1538 | element sizes are 1, 2, 4 or 8 bytes, and 0 exactly for the end type |
| TensorTypes.SetDim | gst/nnstreamer/elements/gsttensor_converter.c:2292-2294 | setting the frames axis sets axis k of the first tensor to n and changes nothing else: not its type, not its other axes, not the other tensors, the rate or the format; with no such axis nothing changes |
| TensorTypes.UnsetAxisMatchesOne | gst/nnstreamer/elements/gsttensor_converter.c:2308-2326 | an input-dim of three axes matches the negotiated shape whose fourth, frame axis is 1, although the two vectors differ |
| TensorTypes.OneByteInfoValid | gst/nnstreamer/elements/gsttensor_converter.c:1862-1866 | the flexible one-byte tensor is valid and one byte long |
| GStrings.ToLower | gst/nnstreamer/elements/gsttensor_converter.c:484 | ASCII lower-casing maps each letter A-Z to the letter at the same place in a-z and leaves everything else |
| GStrings.SameFoldSameLetter | gst/nnstreamer/elements/gsttensor_converter.c:484 | two characters compare equal ignoring case exactly when they are equal or the upper- and lower-case forms of one letter |
| GStrings.EqualsIgnoreCaseIsEquivalence | gst/nnstreamer/elements/gsttensor_converter.c:484 | case-insensitive comparison is reflexive, symmetric and transitive |
| GStrings.Split | ext/nnstreamer/tensor_filter/tensor_filter_snpe.cc:283 | splitting always gives at least one part and no part contains the delimiter |
| GStrings.GSplit | gst/nnstreamer/elements/gsttensor_converter.c:473 | g_strsplit gives no part for the empty string and no part contains the delimiter |
| GStrings.JoinSplit | ext/nnstreamer/tensor_filter/tensor_filter_snpe.cc:307 | joining the parts with the delimiter gives back the original string |
| GStrings.SplitWithoutDelimiter | ext/nnstreamer/tensor_filter/tensor_filter_snpe.cc:283 | a string without the delimiter splits into itself |
| GStrings.SplitAtFirst | ext/nnstreamer/tensor_filter/tensor_filter_snpe.cc:286 | splitting at the first delimiter gives the head and the split of the rest |
| GStrings.LeadingSpaces | ext/nnstreamer/tensor_filter/tensor_filter_snpe.cc:289 | the count of leading spaces stops at the first non-space |
| GStrings.TrailingSpaces | ext/nnstreamer/tensor_filter/tensor_filter_snpe.cc:289 | the count of trailing spaces stops at the last non-space |
| GStrings.StripRemovesOnlyOuterSpaces | ext/nnstreamer/tensor_filter/tensor_filter_snpe.cc:289-290 | g_strstrip removes only leading and trailing spaces and keeps the middle as it was |
| GStrings.StripTrimsBothEnds | ext/nnstreamer/tensor_filter/tensor_filter_snpe.cc:289-290 | a stripped string neither starts nor ends with a space |
| GStrings.StripIdempotent | ext/nnstreamer/tensor_filter/tensor_filter_snpe.cc:289-290 | stripping twice is stripping once |
| GStrings.StripWithoutSpaces | ext/nnstreamer/tensor_filter/tensor_filter_snpe.cc:289-290 | a string without spaces is left alone |
| SnpeFilter.RuntimeNamed | ext/nnstreamer/tensor_filter/tensor_filter_snpe.cc:292-304 | CPU, GPU, DSP and NPU/AIP select their runtime, ignoring case; anything else selects none |
| SnpeFilter.TypeNamed | ext/nnstreamer/tensor_filter/tensor_filter_snpe.cc:325-350 | FLOAT32 selects FLOAT and TF8 selects TF8, ignoring ASCII case, and no other entry is recognised |
| SnpeFilter.KnownTypes | ext/nnstreamer/tensor_filter/tensor_filter_snpe.cc:325-350 | the collected types are recognised ones, at most one per name |
| SnpeFilter.KnownTypesAppend | ext/nnstreamer/tensor_filter/tensor_filter_snpe.cc:325-350 | collecting types over two lists is collecting over each in turn |
| SnpeFilter.AppendTypes | ext/nnstreamer/tensor_filter/tensor_filter_snpe.cc:325-337 | the type loop appends exactly the recognised types, in order |
| SnpeFilter.CollectNames | ext/nnstreamer/tensor_filter/tensor_filter_snpe.cc:305-324 | output tensor names are accepted unless one of them is empty |
| SnpeFilter.ParseOption | ext/nnstreamer/tensor_filter/tensor_filter_snpe.cc:287-352 | one option is applied exactly as the option specification says |
| SnpeFilter.ParseCustomProp | ext/nnstreamer/tensor_filter/tensor_filter_snpe.cc:278-360 | the parser's result is the options applied in order from the defaults |
| SnpeFilter.ApplyOptionsAppend | ext/nnstreamer/tensor_filter/tensor_filter_snpe.cc:283-356 | applying two option lists is applying the second after the first, stopping at the first failure |
| SnpeFilter.SplitKeyValue | ext/nnstreamer/tensor_filter/tensor_filter_snpe.cc:286 | `key:value` without further colons splits into key and value |
| SnpeFilter.RuntimeOption | ext/nnstreamer/tensor_filter/tensor_filter_snpe.cc:292-304 | a Runtime option sets the runtime named by the stripped value and leaves it otherwise |
| SnpeFilter.LastRuntimeWins | ext/nnstreamer/tensor_filter/tensor_filter_snpe.cc:292-304 | the last valid Runtime option decides the runtime |
| SnpeFilter.OutputTensorFields | ext/nnstreamer/tensor_filter/tensor_filter_snpe.cc:286-307 | an OutputTensor option's value may itself contain colons and is split off after the key |
| SnpeFilter.JoinedBack | ext/nnstreamer/tensor_filter/tensor_filter_snpe.cc:307 | the parts after the key are joined back with colons into the original value |
| SnpeFilter.OutputTensorKeepsColons | ext/nnstreamer/tensor_filter/tensor_filter_snpe.cc:305-324 | an OutputTensor option sets the names split at semicolons from the colon-preserving value, and fails on an empty name |
| SnpeFilter.OptionKeepsTypes | ext/nnstreamer/tensor_filter/tensor_filter_snpe.cc:325-350 | a successful option only appends to the type lists |
| SnpeFilter.TypeListsOnlyGrow | ext/nnstreamer/tensor_filter/tensor_filter_snpe.cc:283-356 | successful parsing only appends to the type lists |
| SnpeFilter.FailingOptionStopsParse | ext/nnstreamer/tensor_filter/tensor_filter_snpe.cc:283-356 | an option that always fails makes the whole parse fail |
| SnpeFilter.EmptyTensorNameFails | ext/nnstreamer/tensor_filter/tensor_filter_snpe.cc:312-314 | an empty output tensor name anywhere fails the parse |
| SnpeFilter.SingleOption | ext/nnstreamer/tensor_filter/tensor_filter_snpe.cc:283-356 | a custom string holding one `key:value` option gives what that option does to the defaults |
| SnpeFilter.InputTypeParsed | ext/nnstreamer/tensor_filter/tensor_filter_snpe.cc:283-356 | `InputType:v` alone yields the defaults with the input list replaced by the recognised entries of v |
| SnpeFilter.OutputTypeParsed | ext/nnstreamer/tensor_filter/tensor_filter_snpe.cc:283-356 | `OutputType:v` alone yields the defaults with the output list replaced by the recognised entries of v |
| SnpeFilter.InputTypeOverride | ext/nnstreamer/tensor_filter/tensor_filter_snpe.cc:442-447 | under `InputType:v` the input list is the recognised entries of v in order; input tensor i is resolved with entry i while i is below the list's length, and with an UNKNOWN request (the model's default) beyond it |
| SnpeFilter.OutputTypeOverride | ext/nnstreamer/tensor_filter/tensor_filter_snpe.cc:468-471 | the same for `OutputType:v` and the output tensors |
| SnpeFilter.ResolveType | ext/nnstreamer/tensor_filter/tensor_filter_snpe.cc:203-228 | FLOAT32 resolves to float32; TF8 to uint8 unless the model is float; unknown follows the model's own type; anything else is unsupported |
| SnpeFilter.DimsAndStrides | ext/nnstreamer/tensor_filter/tensor_filter_snpe.cc:231-243 | nnstreamer dimensions are the SDK's in reverse order padded with zeros, and stride k is the element size times the product of the later axes |
| SnpeFilter.ReversedDims | ext/nnstreamer/tensor_filter/tensor_filter_snpe.cc:231-236 | the dimension loop reverses the SDK dimensions and pads with zeros |
| SnpeFilter.Strides | ext/nnstreamer/tensor_filter/tensor_filter_snpe.cc:238-243 | the stride loop gives each axis the element size times the product of the later axes |
| BoxOptions.UpdateDecodingMode | ext/nnstreamer/tensor_decoder/tensordec-boundingbox.cc:85-97 | the legacy names tflite-ssd and tf-ssd map to their current names, and every other name is kept |
| BoxOptions.UpdateDecodingModeIdempotent | ext/nnstreamer/tensor_decoder/tensordec-boundingbox.cc:85-97 | a mapped name is never legacy, so mapping twice is mapping once |
| BoxOptions.CheckTensors | ext/nnstreamer/tensor_decoder/tensordec-boundingbox.cc:483-509 | the check passes exactly when there are at least the required number of tensors and all have the first tensor's type |
| BoxNms.InsertByProbPermutes | ext/nnstreamer/tensor_decoder/tensordec-boundingbox.cc:448 | inserting into the sorted list adds exactly that detection |
| BoxNms.InsertByProbSorts | ext/nnstreamer/tensor_decoder/tensordec-boundingbox.cc:448 | inserting keeps the list sorted by descending probability |
| BoxNms.SortByProbSpec | ext/nnstreamer/tensor_decoder/tensordec-boundingbox.cc:448 | sorting gives a permutation in descending probability |
| BoxNms.SuppressAfter | ext/nnstreamer/tensor_decoder/tensordec-boundingbox.cc:450-468 | one pass invalidates exactly the later valid boxes overlapping the current one beyond the threshold |
| BoxNms.MarkSuppressed | ext/nnstreamer/tensor_decoder/tensordec-boundingbox.cc:450-468 | after all passes no two remaining boxes overlap beyond the threshold, and each suppressed box overlaps an earlier remaining one beyond it |
| BoxNms.RemoveInvalid | ext/nnstreamer/tensor_decoder/tensordec-boundingbox.cc:470-477 | removal keeps exactly the valid boxes, in order |
| BoxNms.Nms | ext/nnstreamer/tensor_decoder/tensordec-boundingbox.cc:438-478 | the result is the valid boxes of the sorted input in order, with no overlap beyond the threshold between any two, and every dropped valid box overlaps a kept earlier one |
| BoxTracking.Half | ext/nnstreamer/tensor_decoder/tensordec-boundingbox.cc:596-597 | halving rounds toward zero, as C integer division does |
| BoxTracking.PairDistance | ext/nnstreamer/tensor_decoder/tensordec-boundingbox.cc:614-633 | a removed centroid is at the maximal distance from every box, and a centroid at a box's centre is at distance 0 |
| BoxTracking.SurvivorsAppend | ext/nnstreamer/tensor_decoder/tensordec-boundingbox.cc:559-568 | removal of disappeared centroids works element by element |
| BoxTracking.SurvivorsMembers | ext/nnstreamer/tensor_decoder/tensordec-boundingbox.cc:559-568 | exactly the centroids seen recently enough survive |
| BoxTracking.DistanceSlotInRange | ext/nnstreamer/tensor_decoder/tensordec-boundingbox.cc:608-617 | the corrected slot of each pair lies inside the table |
| BoxTracking.DistanceSlotInjective | ext/nnstreamer/tensor_decoder/tensordec-boundingbox.cc:608-617 | the corrected slots of distinct pairs differ |
| BoxTracking.DistanceSlotCovers | ext/nnstreamer/tensor_decoder/tensordec-boundingbox.cc:608-617 | every table slot belongs to one pair |
| BoxTracking.AsWrittenRowAt | ext/nnstreamer/tensor_decoder/tensordec-boundingbox.cc:614-633 | as written, row i fills the slots from i times the centroid count |
| BoxTracking.AsWrittenLosesPair | ext/nnstreamer/tensor_decoder/tensordec-boundingbox.cc:608-633 | as written, with 2 centroids and 3 boxes pair (0,2) is overwritten and the last slot keeps a stale entry |
| BoxTracking.AsWrittenDropsPair | ext/nnstreamer/tensor_decoder/tensordec-boundingbox.cc:608-633 | as written, with 2 centroids and 1 box the write of pair (1,0) falls past the end of the table |
| BoxTracking.InsertByDistancePermutes | ext/nnstreamer/tensor_decoder/tensordec-boundingbox.cc:636 | inserting into the distance list adds exactly that entry |
| BoxTracking.InsertByDistanceSorts | ext/nnstreamer/tensor_decoder/tensordec-boundingbox.cc:636 | inserting keeps the list in ascending distance |
| BoxTracking.SortByDistanceSpec | ext/nnstreamer/tensor_decoder/tensordec-boundingbox.cc:636 | sorting the distance table gives a permutation in ascending distance |
| BoxTracking.CloserComesFirst | ext/nnstreamer/tensor_decoder/tensordec-boundingbox.cc:636-665 | an entry closer than the one at position d comes before it |
| BoxMatching.DistanceRowsAt | ext/nnstreamer/tensor_decoder/tensordec-boundingbox.cc:607-634 | the table holds each pair's distance entry in its slot; over the corrected distance table, slot i·B+j (see Findings) |
| BoxMatching.DistanceRowsEntries | ext/nnstreamer/tensor_decoder/tensordec-boundingbox.cc:607-634 | every table entry is a real pair with its true distance; over the corrected distance table, slot i·B+j (see Findings) |
| BoxMatching.SortedTableFor | ext/nnstreamer/tensor_decoder/tensordec-boundingbox.cc:607-636 | the sorted table holds each pair exactly once, in ascending distance; over the corrected distance table, slot i·B+j (see Findings) |
| BoxMatching.MatchPrefixInvariant | ext/nnstreamer/tensor_decoder/tensordec-boundingbox.cc:638-665 | after any number of walk steps the matching is sound, the closest free pairs were taken and the walked entries are settled |
| BoxMatching.MatchWalkMaximal | ext/nnstreamer/tensor_decoder/tensordec-boundingbox.cc:638-665 | after the walk, every live centroid is matched or every box is taken |
| BoxTracker.SurvivorsIdsValid | ext/nnstreamer/tensor_decoder/tensordec-boundingbox.cc:559-568 | removal keeps centroid ids positive, ascending and at most the last id |
| BoxTracker.RegisterPrefixSpec | ext/nnstreamer/tensor_decoder/tensordec-boundingbox.cc:680-699 | registration appends centroids with consecutive new ids at the boxes' centres and gives those ids to the boxes; other box fields are unchanged |
| BoxTracker.RegisterAllTracks | ext/nnstreamer/tensor_decoder/tensordec-boundingbox.cc:586-606 | after registration every box has a track id |
| BoxTracker.RegisterNothingNew | ext/nnstreamer/tensor_decoder/tensordec-boundingbox.cc:680-699 | when every box is already tracked, registration changes nothing |
| BoxTracker.RegisterIdsValid | ext/nnstreamer/tensor_decoder/tensordec-boundingbox.cc:586-606 | registration keeps centroid ids valid |
| BoxTracker.GreedyMatchSound | ext/nnstreamer/tensor_decoder/tensordec-boundingbox.cc:638-665 | matching only links live centroids to untracked boxes, sets the box's id to the centroid's and resets the centroid's counter; everything else is kept; over the corrected distance table, slot i·B+j (see Findings) |
| BoxTracker.GreedyMatchClosestFirst | ext/nnstreamer/tensor_decoder/tensordec-boundingbox.cc:638-665 | a box closer to a matched centroid than its match is taken by another, and a centroid closer to a matched box than its match is itself matched; over the corrected distance table, slot i·B+j (see Findings) |
| BoxTracker.GreedyMatchMaximal | ext/nnstreamer/tensor_decoder/tensordec-boundingbox.cc:638-665 | no live centroid stays unmatched while a box stays untracked; over the corrected distance table, slot i·B+j (see Findings) |
| BoxTracker.UpdateIdsValid | ext/nnstreamer/tensor_decoder/tensordec-boundingbox.cc:552-701 | updateCentroids keeps centroid ids valid; over the corrected distance table, slot i·B+j (see Findings) |
| BoxTracker.UpdateTracksEveryBox | ext/nnstreamer/tensor_decoder/tensordec-boundingbox.cc:552-701 | within the limits, every box leaves updateCentroids with a track id; over the corrected distance table, slot i·B+j (see Findings) |
| BoxTracker.UpdateBoxesOnlyGainIds | ext/nnstreamer/tensor_decoder/tensordec-boundingbox.cc:552-701 | updateCentroids changes boxes only in their track id, not at all beyond the limits, and never a tracked box while centroids remain; over the corrected distance table, slot i·B+j (see Findings) |
| BoxTracker.UpdateNewCentroids | ext/nnstreamer/tensor_decoder/tensordec-boundingbox.cc:586-606 | new centroids get consecutive ids after the last one, start at the centre of their box, and give their id to it; over the corrected distance table, slot i·B+j (see Findings) |
| BoxTracker.UpdateSurvivorCounters | ext/nnstreamer/tensor_decoder/tensordec-boundingbox.cc:574-678 | without boxes every live centroid's counter grows by one; with boxes a matched centroid is reset and its box tracked, and an unmatched one grows; over the corrected distance table, slot i·B+j (see Findings) |
| BoxTracker.UpdateUnmatchedMeansNoNewCentroids | ext/nnstreamer/tensor_decoder/tensordec-boundingbox.cc:667-699 | if a live centroid stays unmatched, no new centroid is registered; over the corrected distance table, slot i·B+j (see Findings) |
| BoxDraw.PixelIndexInRange | ext/nnstreamer/tensor_decoder/tensordec-boundingbox.cc:788-799 | a point inside the frame has a pixel index inside the buffer |
| BoxDraw.PixelIndexInjective | ext/nnstreamer/tensor_decoder/tensordec-boundingbox.cc:788-799 | distinct points in the frame have distinct pixel indices |
| BoxDraw.NoOvershoot | ext/nnstreamer/tensor_decoder/tensordec-boundingbox.cc:709-727 | Bresenham's error term never steps past the end point on either axis |
| BoxDraw.PaintedExactly | ext/nnstreamer/tensor_decoder/tensordec-boundingbox.cc:706-729 | a pixel is painted exactly when its point is on the path |
| BoxDraw.Plot | ext/nnstreamer/tensor_decoder/tensordec-boundingbox.cc:714-716 | a point is written only when it is inside the frame, and nothing else changes |
| BoxDraw.CloseAfterStep | ext/nnstreamer/tensor_decoder/tensordec-boundingbox.cc:720-727 | the two comparisons of the doubled error term keep the walk's offset from the segment at most half the major extent |
| BoxDraw.Advance | ext/nnstreamer/tensor_decoder/tensordec-boundingbox.cc:717-727 | one step moves toward the end point by one on x, y or both, keeps the walk's invariant and stays within half a pixel of the ideal segment |
| BoxDraw.NearLineAfterStep | ext/nnstreamer/tensor_decoder/tensordec-boundingbox.cc:720-727 | a step chosen by the error term keeps the walk within half a pixel of the ideal segment |
| BoxDraw.DrawLine | ext/nnstreamer/tensor_decoder/tensordec-boundingbox.cc:706-729 | the line runs from start to end in single steps, every point within half a pixel (along the major axis) of the ideal segment, and paints exactly its in-frame points |
| BoxDraw.HorizontalEdgesMembers | ext/nnstreamer/tensor_decoder/tensordec-boundingbox.cc:787-795 | the horizontal edges are the points from x1 to x2 on rows y1 and y2 |
| BoxDraw.VerticalEdgesMembers | ext/nnstreamer/tensor_decoder/tensordec-boundingbox.cc:797-805 | the vertical edges are the points strictly between y1 and y2 on columns x1 and x2 |
| BoxDraw.BoxOutlineMembers | ext/nnstreamer/tensor_decoder/tensordec-boundingbox.cc:778-805 | the outline is exactly the rectangle's border |
| BoxDraw.PaintedAppend | ext/nnstreamer/tensor_decoder/tensordec-boundingbox.cc:787-805 | painting two paths paints the union of their pixels |
| BoxDraw.PaintedPair | ext/nnstreamer/tensor_decoder/tensordec-boundingbox.cc:791-792 | painting two points paints their two pixels |
| BoxDraw.PaintPair | ext/nnstreamer/tensor_decoder/tensordec-boundingbox.cc:791-792 | one loop step writes exactly the two pixels |
| BoxDraw.PaintMore | ext/nnstreamer/tensor_decoder/tensordec-boundingbox.cc:790-805 | one loop step extends the painted set by the two new points |
| BoxDraw.PaintColumn | ext/nnstreamer/tensor_decoder/tensordec-boundingbox.cc:790-795 | one round of the horizontal loop paints column j on both rows and keeps the loop invariant |
| BoxDraw.DrawHorizontalEdges | ext/nnstreamer/tensor_decoder/tensordec-boundingbox.cc:787-795 | the horizontal loop paints exactly the horizontal edges |
| BoxDraw.PaintRow | ext/nnstreamer/tensor_decoder/tensordec-boundingbox.cc:800-805 | one round of the vertical loop paints row i in both columns and keeps the loop invariant |
| BoxDraw.DrawVerticalEdges | ext/nnstreamer/tensor_decoder/tensordec-boundingbox.cc:797-805 | the vertical loop paints exactly the vertical edges |
| BoxDraw.OverlayTwice | ext/nnstreamer/tensor_decoder/tensordec-boundingbox.cc:787-805 | painting twice is painting the union once |
| BoxDraw.OverlayPixels | ext/nnstreamer/tensor_decoder/tensordec-boundingbox.cc:787-805 | after painting, each pixel is the colour if painted and its old value otherwise |
| BoxDraw.DrawBox | ext/nnstreamer/tensor_decoder/tensordec-boundingbox.cc:778-805 | drawing a box paints exactly its outline and leaves every other pixel |
| BoxDecoder.DrawableCornersInFrame | ext/nnstreamer/tensor_decoder/tensordec-boundingbox.cc:782-785 | for a drawable box all four scaled corners lie inside the output frame |
| BoxDecoder.TrackingKeepsDrawable | ext/nnstreamer/tensor_decoder/tensordec-boundingbox.cc:1103-1107 | tracking changes only track ids, so boxes drawable before stay drawable |
| BoxDecoder.BoundingBox.constructor | ext/nnstreamer/tensor_decoder/tensordec-boundingbox.cc:512-534 | a new decoder has no mode, no size, no labels, no tracking state and no box properties |
| BoxDecoder.BoundingBox.SetBoxDecodingMode | ext/nnstreamer/tensor_decoder/tensordec-boundingbox.cc:891-911 | a missing or empty parameter fails with no change; otherwise the name, after legacy mapping, selects its box properties (and the oriented mode for yolov8-obb) and succeeds exactly when known |
| BoxDecoder.BoundingBox.SetLabelPath | ext/nnstreamer/tensor_decoder/tensordec-boundingbox.cc:917-937 | palm detection ignores labels and succeeds; otherwise the path is stored, the labels loaded, and success means at least one label, which is also passed to the box properties |
| BoxDecoder.BoundingBox.SetVideoSize | ext/nnstreamer/tensor_decoder/tensordec-boundingbox.cc:943-966 | a missing parameter keeps the size; fewer than two dimensions give size 0x0; otherwise the first two dimensions become width and height; it always succeeds |
| BoxDecoder.BoundingBox.SetInputModelSize | ext/nnstreamer/tensor_decoder/tensordec-boundingbox.cc:972-995 | as for the video size, but for the box properties' input width and height |
| BoxDecoder.BoundingBox.SetOption | ext/nnstreamer/tensor_decoder/tensordec-boundingbox.cc:1001-1027 | each option changes only its own fields: track and log take the parsed number; mode, label path and internal options report their setter's result; all others succeed |
| BoxDecoder.BoundingBox.RemoveDisappeared | ext/nnstreamer/tensor_decoder/tensordec-boundingbox.cc:559-568 | the loop keeps exactly the surviving centroids |
| BoxDecoder.BoundingBox.CountDisappearedFrames | ext/nnstreamer/tensor_decoder/tensordec-boundingbox.cc:574-585 | without boxes every live centroid's counter grows by one |
| BoxDecoder.BoundingBox.RegisterBoxes | ext/nnstreamer/tensor_decoder/tensordec-boundingbox.cc:586-606 | the registration loop performs exactly the specified registration |
| BoxDecoder.BoundingBox.BuildDistanceTable | ext/nnstreamer/tensor_decoder/tensordec-boundingbox.cc:607-634 | the table loop gives the corrected distance table over the reset centroids |
| BoxDecoder.BoundingBox.FillRow | ext/nnstreamer/tensor_decoder/tensordec-boundingbox.cc:614-633 | filling row i extends the correctly filled prefix by one row |
| BoxDecoder.BoundingBox.MatchGreedily | ext/nnstreamer/tensor_decoder/tensordec-boundingbox.cc:638-665 | the walk loop performs exactly the specified walk over the table |
| BoxDecoder.BoundingBox.CountUnmatched | ext/nnstreamer/tensor_decoder/tensordec-boundingbox.cc:667-678 | every live unmatched centroid's counter grows by one |
| BoxDecoder.BoundingBox.MatchBoxes | ext/nnstreamer/tensor_decoder/tensordec-boundingbox.cc:607-678 | table, sort, walk and counters together give the specified greedy match; over the corrected distance table, slot i·B+j (see Findings) |
| BoxDecoder.BoundingBox.MatchAndRegister | ext/nnstreamer/tensor_decoder/tensordec-boundingbox.cc:607-699 | matching followed by registering the untracked boxes is the specified update for existing centroids; over the corrected distance table, slot i·B+j (see Findings) |
| BoxDecoder.BoundingBox.UpdateCentroids | ext/nnstreamer/tensor_decoder/tensordec-boundingbox.cc:552-701 | the method changes centroids, last id and boxes exactly as the updateCentroids specification says; over the corrected distance table, slot i·B+j (see Findings) |
| BoxDecoder.BoundingBox.Draw | ext/nnstreamer/tensor_decoder/tensordec-boundingbox.cc:738-842 | label sprites aside (not modelled), each pixel of the frame ends up the pixel colour if it lies on a drawn box outline, and keeps its value otherwise |
| BoxDecoder.BoundingBox.Track | ext/nnstreamer/tensor_decoder/tensordec-boundingbox.cc:1103-1105 | with tracking on the boxes and tracker follow the specification; with it off nothing changes |
| BoxDecoder.BoundingBox.Decode | ext/nnstreamer/tensor_decoder/tensordec-boundingbox.cc:1059-1125 | the label flag is set from the label data; the frame is cleared, then tracking is applied if on, then the outlines are drawn, so, label sprites aside (not modelled), each pixel is the colour on an outline and 0 elsewhere |

## Left out

- Pad, query and caps plumbing of the converter are not modelled: `get_possible_media_caps`, `update_caps`, `query_caps`, the pad templates and the event default handler.
- Buffer mapping and allocation failures are not modelled: maps and allocations always succeed.
- A buffer's size is the bytes of its memories; the bytes of a flexible header are part of the header record and are not counted.
- 32- and 64-bit widths are modelled only where the code relies on them: the clock-time wrap-around (modulus 2^64) and `gst_util_uint64_scale_int` overflow. All other sizes are unbounded.
- The client-id meta is reduced to a key that selects the FIFO.
- Framerates that are not a fraction are not modelled: caps carry numerator and denominator only.
- Padding removal covers one frame per buffer, which is what the video path hands in. The copy loop counts the rows left rather than the row index.
- The byte encoding of the flexible tensor header is not modelled; a header is a record with its tensor info and media tag.
- The registry listing order used by `findExternalConverter` is an input (`get_all_subplugins` is not part of this model).
- The peer's caps, the external converter's callbacks, the custom callback and the script's open call are inputs, and so are their results.
- The element clock is an input; the pipeline's clock is not modelled.
- Downstream's answers to pushes are an input: `ChainEnv.downstream(k)` is the flow `gst_pad_push` returns for the k-th push of a call, and chain passes it on unchanged.
- `priv_data` of the external converter is not modelled.
- The dimension and type string parsers (`gst_tensors_info_parse_dimensions_string`, `…_types_string`) are not part of this model; the setters take their parsed result.
- BoxNms.Nms: the overlap measures (IoU, rotated IoU) are parameters, and probability is an integer ordering key.
- The oriented (OBB) drawing path, the label sprites, `logBoxes`, `getProperties`/`addProperties` and the per-mode `decode` of the box properties are not modelled; the detected objects are an input to `Decode`.
- The pixel colour `PIXEL_VALUE` is a parameter.
- BoxDecoder.BoundingBox.Draw: does not draw the 8×13 label glyph sprites the source writes above each box when labels are in use (tensordec-boundingbox.cc:808-839), so with labels its frame differs from the source's there; it requires every box it draws to be drawable, because the source writes outside the frame or into the wrong row otherwise; it also requires box properties with a positive input width and height, because `setInputModelSize` with fewer than two dimensions sets both to 0 and the source then divides by zero (tensordec-boundingbox.cc:782-785).
- BoxDecoder.BoundingBox.Decode: requires box properties with a positive input width and height, for the same division in drawing.
- BoxDecoder.BoundingBox.Track: requires box properties with a positive input width and height, so that the boxes it keeps drawable can be drawn; tracking itself does not divide.
- BoxDecoder.BoundingBox.SetLabelPath: requires box properties to exist when labels are loaded, because the source dereferences a null `bdata` when the label option comes before the mode (tensordec-boundingbox.cc:932).
- BoxDecoder.BoundingBox.SetInputModelSize: requires box properties to exist for a given parameter, because the source dereferences a null `bdata` when the size option comes before the mode (tensordec-boundingbox.cc:980).
- BoxDecoder.BoundingBox.SetOption: carries the two requirements above for the label path and input size options, and requires box properties for the internal options.
- BoxDecoder.BoundingBox.UpdateCentroids: the element model runs the corrected distance table (slot i·B+j, see Findings); the as-written indexing is modelled only by BoxTracking.AsWrittenTable and the lemmas BoxTracking.AsWrittenLosesPair and BoxTracking.AsWrittenDropsPair, so the tracker never shows the corrupted table the source builds when the centroid and box counts differ.
- Converter.TensorConverter.ParseCaps: the element model runs the corrected video parse, which clears the padding flag on renegotiation (see Findings); the sticky flag of the source is modelled only by ConvMedia.ParseVideoAsWritten and ConvMedia.StickyPaddingFlagBreaksAlignment, so the element never reaches the failed alignment assertion at gsttensor_converter.c:1103.
- BoxDecoder.BoundingBox.Decode: the output buffer is a pixel array of the frame size; buffer allocation, mapping and the RGBA byte layout are not modelled.
- SnpeFilter.DimsAndStrides: requires a rank from 1 to RANK_LIMIT (16), because the source does not check the SDK's rank: rank 0 writes `strides[-1]` and a rank above 16 writes past the dimension array (tensor_filter_snpe.cc:231-243).
- SnpeFilter.ReversedDims: requires a rank of at most RANK_LIMIT, for the same reason.
- SnpeFilter.Strides: requires a rank of at least 1, for the same reason.
- TensorTypes.InfoEqual: the nnstreamer utility library is not part of this model; `gst_tensors_info_is_equal` and `gst_tensor_dimension_is_equal` are written from their documented behaviour (the same format; for static streams as many tensors with the same type and valid dimensions that agree on every axis, except that 0 and 1 match), and any further check the library makes is not modelled. The same holds for the validation and size helpers in `TensorTypes`.
- SnpeFilter: the SDK calls (model loading, buffer creation in `handleTensor`, execution) are not modelled; the model's own default encoding and dimensions are inputs. C++ exceptions become `Result` errors.

## Findings

| source | as written | input that shows it | evidently intended | confidence | as-written member | corrected member |
|---|---|---|---|---|---|---|
| gst/nnstreamer/elements/gsttensor_converter.c:1547-1549 | `remove_padding` is only ever set to TRUE in `parse_video`, never cleared | caps RGB 14x2, then renegotiated to RGB 16x2: the flag stays set, and the chain's alignment assertion for padded rows fails on aligned rows | the flag reflects the current caps only | not executed | ConvMedia.StickyPaddingFlagBreaksAlignment | ConvMedia.RenegotiationClearsPaddingFlag |
| ext/nnstreamer/tensor_decoder/tensordec-boundingbox.cc:608-617 | the distance table has C·B slots but pair (i, j) is written at i·C + j | C = 2 centroids, B = 3 boxes: pair (1,0) overwrites (0,2) and slot 5 is never written; C = 2, B = 1: pair (1,0) is written past the end | slot i·B + j, one per pair | not executed | BoxTracking.AsWrittenLosesPair | BoxTracking.DistanceSlotInjective |
