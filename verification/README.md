# NeutrinoRDP: a verified model of its codecs, fragmentation and protocol steps

The project models the parts of NeutrinoRDP (an RDP client and server library in C) where many small updates have to add up:
the RemoteFX codec ([MS-RDPRFX]), the MPPC, NSCodec and planar bitmap decoders, fast-path and virtual-channel fragmentation,
the connection sequence, and the plugin threads. Every module states what the code computes against a definition that does not
mention loops, cursors or windows, and proves it for all inputs, all runs or all interleavings.

Machine words are integers with explicit wrap-around (`Words`), bit strings are sequences of booleans with the most significant
bit first (`Bits`), single bits of words are in `Masks`, rectangles in flat buffers are row-major cells (`Grid`). Code that updates buffers in place is modelled by
classes and methods over arrays and sequences; each is tied by its postcondition to a function of the old state. Threads and
the two ends of a connection are modelled as atomic steps over a state, with lemmas about every run.

| modules | subject |
|---|---|
| `BitStream`, `Rlgr`, `RlgrRoundTrip`, `RlgrCoder`, `RlgrParameters`, `RlgrLength` | bit-packed buffer, the adaptive run-length/Golomb-Rice coder, its parameters in closed form and the length of its code |
| `Dwt`, `DwtBlock`, `DwtInverse`, `DwtGain`, `DwtLevels` | integer 5/3 wavelet, scalar loops, growth over the levels, three levels and their error |
| `Sse2`, `DwtSse2`, `DwtSse2Rows`, `DwtSse2Back`, `DwtSse2Block`, `DwtSse2Range` | the wavelet on eight 16-bit lanes |
| `Quantization`, `Component`, `ComponentError` | ten sub-bands, differential coding, stage order of a component, error of the whole codec |
| `LittleEndian`, `RfxMessage`, `RfxComposer`, `RfxParser`, `RfxTransfer` | RemoteFX messages, composed with patched lengths, parsed, and both together |
| `Mppc`, `MppcTokens`, `MppcExpansion`, `MppcWindow`, `MppcDecoder`, `MppcSession` | MPPC token language, what tokens do to the history, bit window, history |
| `NscPlane`, `NscScaling`, `NscChroma`, `Nsc` | NSCodec planes with a ninth bit, supersampling, colours |
| `PlanarRle`, `PlanarDecoder` | run-length coded planes with line-to-line deltas |
| `FastPath`, `FastPathSender` | fast-path fragments and reassembly |
| `VirtualChannel` | chunks of static virtual channels |
| `Connection`, `ConnectionProgress`, `RdpClient`, `JoinHandshake` | client connection sequence, its progress, and the channel-join handshake |
| `WireFormats` | headers and blocks of RemoteFX, fast-path and virtual channels byte by byte |
| `PluginQueue`, `EventMailbox` | write queue with wake-up signal, one-slot mailbox |

Properties that turn out not to hold of the code everywhere are stated with the exact condition, and with an input that shows
the failure:

- lossless coding: a trailing zero in run-length mode, and an RLGR3 pair whose sum leaves 16 bits (`RlgrRoundTrip.LosslessIff`;
  `RlgrRoundTrip.SingleZeroDecodesToOne`, `RlgrRoundTrip.LargePairLost`), and in the pipeline (`Component.PipelineExact`);
- the wavelet's error bounds at the ends of the 16-bit range, for a sample, a line, a block and a level in the flat buffer
  (`Dwt.EvenErrorIff`, `Dwt.OddOfHighIff`, `Dwt.LineIff`, `Dwt.BlockIff`, `DwtInverse.LevelIff`; `Dwt.BottomSampleLost`,
  `Dwt.BottomOddLost`, `Dwt.TopSampleLost`), and its high coefficients (`Dwt.HighRestored`; `Dwt.TopCoefficientLost`);
- lane sums that do not fit (`Sse2.HighLaneIff` and its companions; `Sse2.LanesOverflow`);
- a rounding that leaves 16 bits at the top (`Quantization.RestoredIff`; `Quantization.TopSampleRounded`);
- 16-bit counts of rectangles and tiles (`RfxMessage.AllReadIff`, `RfxTransfer.GridReadIff`; `RfxTransfer.SquareImageLost`);
- colours that the rounding of the transform changes (`Nsc.ColourExactIff`; `Nsc.ColourBack` says for every colour by how much);
- a history flush without restart at the front (`MppcSession.RangeIff`; `MppcSession.FlushWithoutFront`);
- finalization bits that survive a deactivation (`Connection.FinalizationIff`; `Connection.ReactivatedAtOnce`).

In run-length mode the encoder writes a code for a trailing zero on purpose, for the sake of another decoder; the decoder in
this repository reads that code as the value 1. The model follows the code on both sides.

## Model

| member | source | states |
|---|---|---|
| BitStream.BitStream.constructor | libfreerdp-codec/rfx_bitstream.h:34-38 | a new stream stands before the first bit of its buffer |
| BitStream.BitStream.GetBits | libfreerdp-codec/rfx_bitstream.h:40-60 | up to 16 bits are the next bits of the stream as a number, fewer at its end, and exactly those bits are consumed |
| BitStream.BitStream.PutBits | libfreerdp-codec/rfx_bitstream.h:62-80 | the low bits of the word replace the next bits of the buffer as far as there is room; all bits before and after keep their values |
| BitStream.BitStream.EosIffNoRest | libfreerdp-codec/rfx_bitstream.h:82 | the end test holds exactly when no bit is left |
| BitStream.BitStream.Left | libfreerdp-codec/rfx_bitstream.h:83 | the count is the number of bits ahead of the cursor |
| BitStream.BitStream.ProcessedBytes | libfreerdp-codec/rfx_bitstream.h:84 | the least number of bytes that hold every bit behind the cursor |
| RlgrRoundTrip.GRRoundTrip | libfreerdp-codec/rfx_rlgr.c:96-115 | reading a Golomb-Rice code returns the value, the updated parameter and exactly the bits behind the code, for every parameter |
| RlgrRoundTrip.GRBack | libfreerdp-codec/rfx_rlgr.c:96-115 | the same for every value of any size, which comes back modulo 2^16 |
| RlgrRoundTrip.MagSignRoundTrip | libfreerdp-codec/rfx_rlgr.c:263 | magnitude-and-sign coding of every 16-bit value is undone |
| RlgrRoundTrip.StepRoundTrip | libfreerdp-codec/rfx_rlgr.c:312-427 | one decoder step on one encoder step's bits yields the same values and the same k, kp and krp, in both modes, for every step whose pair sum fits 16 bits |
| RlgrRoundTrip.PairLost | libfreerdp-codec/rfx_rlgr.c:395-415 | a pair whose sum is 2^16 or more is decoded with a wrong first value, whatever the parameters and whatever follows |
| RlgrRoundTrip.RoundTrip | libfreerdp-codec/rfx_rlgr.c:295-431 | for every input whose coded pairs fit (RLGR1: all inputs) and whatever follows the code, decoding returns the input, except that a trailing zero met in run-length mode becomes 1 |
| RlgrRoundTrip.LosslessIff | libfreerdp-codec/rfx_rlgr.c:295-431 | for every input in both modes, the code is lossless if and only if every pair that the encoder codes has a sum below 2^16 and no trailing zero is met in run-length mode |
| RlgrRoundTrip.SingleZeroDecodesToOne | libfreerdp-codec/rfx_rlgr.c:350-358 | the input consisting of one zero is decoded as one, in both modes and whatever follows |
| RlgrRoundTrip.SmallFit | libfreerdp-codec/rfx_rlgr.c:390-425 | the pairs fit for every RLGR1 input and for every RLGR3 input of magnitudes up to 16383 |
| RlgrRoundTrip.LargePairLost | libfreerdp-codec/rfx_rlgr.c:390-425 | an RLGR3 input of three values that does not come back |
| RlgrParameters.RunsRead | libfreerdp-codec/rfx_rlgr.c:150-158 | for every kp and n, n zero bits and a one are read as the sum over j < n of 2^(min(80, kp + 4j) / 8) zeros, and leave kp at min(80, kp + 4n) |
| RlgrParameters.RunsSplit | libfreerdp-codec/rfx_rlgr.c:334-342 | for every kp and number of zeros, the encoder's full runs and the rest in the same closed form |
| RlgrParameters.CodeMoves | libfreerdp-codec/rfx_rlgr.c:268-293 | the bits of a Golomb-Rice code by quotient and remainder of 2^(krp / 8), and krp after it: down by 2, unchanged, or up by the quotient, within 0 .. 80 |
| RlgrParameters.CodeRead | libfreerdp-codec/rfx_rlgr.c:96-115 | the same for reading, from any number of ones and whatever follows |
| RlgrParameters.RunStepIs | libfreerdp-codec/rfx_rlgr.c:316-361 | all bits of a run step of the encoder, and kp 6 lower after it |
| RlgrParameters.ValueStepIs | libfreerdp-codec/rfx_rlgr.c:366-388 | a single value: its code, and kp up by 3 for a zero and down by 3 otherwise |
| RlgrParameters.PairStepIs | libfreerdp-codec/rfx_rlgr.c:389-423 | a pair: its code, and kp up by 6, down by 6 or unchanged |
| RlgrParameters.RunReadIs | libfreerdp-codec/rfx_rlgr.c:143-173 | the values, the rest and both parameters of a run step of the decoder, for every number of zero bits and whatever follows |
| RlgrParameters.ValueReadIs | libfreerdp-codec/rfx_rlgr.c:181-197 | likewise for a single value |
| RlgrParameters.PairReadIs | libfreerdp-codec/rfx_rlgr.c:198-227 | likewise for a pair |
| RlgrParameters.FiveZerosAndOne | libfreerdp-codec/rfx_rlgr.c:295-431 | five zeros and a one are the byte 0x28, in both modes and both directions |
| RlgrLength.LengthBound | libfreerdp-codec/rfx_rlgr.c:295-431 | for every input, the code takes at most 73 (RLGR1) or 91 (RLGR3) bits for each value and one more value, 4016 bits, and what the doubled magnitudes are above 2048: one value may take thousands of bits, but raises the parameters for those behind it |
| RlgrLength.NoisyLong | libfreerdp-codec/rfx_encode.c:263-266 | 4096 values of magnitudes from 256 on never fit into the 4096 bytes that are made sure of |
| RlgrCoder.CodeGR | libfreerdp-codec/rfx_rlgr.c:268-293 | appends exactly the Golomb-Rice code of the value and updates krp as the code's definition says |
| RlgrCoder.OutputBit | libfreerdp-codec/rfx_rlgr.c:254-260 | appends the same bit count times, sixteen at a time |
| RlgrCoder.GetMinBits | libfreerdp-codec/rfx_rlgr.c:67-76 | the number of bits of a value |
| RlgrCoder.RlgrEncode | libfreerdp-codec/rfx_rlgr.c:295-431 | the bytes start with the code of the whole input, cut off only by the buffer; the byte count is the rounded-up code length; nothing behind the buffer is touched |
| RlgrCoder.WriteZeroes | libfreerdp-codec/rfx_rlgr.c:53-64 | zeroes are appended as far as the buffer reaches |
| RlgrCoder.GetGRCode | libfreerdp-codec/rfx_rlgr.c:96-115 | reads one Golomb-Rice code, ending at the end of the stream if need be |
| RlgrCoder.RlgrDecode | libfreerdp-codec/rfx_rlgr.c:118-234 | for every byte string and mode the decoder ends, writes at most buffer-size values, those of the specification, and leaves the rest of the buffer alone |
| Dwt.LineShifted | libfreerdp-codec/rfx_dwt.c:50-71 | decoding a line whose low band is off by a range of errors and whose high band by another: the exact ranges for its even and odd samples, wherever they leave room in 16 bits |
| Dwt.LineError | libfreerdp-codec/rfx_dwt.c:50-71 | on a line of any width, even samples come back with error -1 or 0 and odd ones with error -2 .. 0 |
| Dwt.EvenErrorIff | libfreerdp-codec/rfx_dwt.c:52-60 | for every line an even sample is within that bound if and only if it is not the least value next to high coefficients of odd sum |
| Dwt.OddOfHighIff | libfreerdp-codec/rfx_dwt.c:62-71 | an odd sample between restored even ones is within its bound if and only if the sum before the store fits 16 bits |
| Dwt.BottomSampleLost | libfreerdp-codec/rfx_dwt.c:52-60 | a line whose third sample does not come back |
| Dwt.BottomOddLost | libfreerdp-codec/rfx_dwt.c:62-71 | an odd sample that does not come back although its neighbours do |
| Dwt.LineIff | libfreerdp-codec/rfx_dwt.c:50-71 | for every line of every width, all samples come back within the bounds if and only if no even sample is the least value next to an odd sum of high coefficients and no sum behind an odd sample leaves 16 bits |
| Dwt.RowNearIff | libfreerdp-codec/rfx_dwt.c:50-71 | the same condition decides whether a row of a band comes back within -2 .. 0 |
| Dwt.HighRestored | libfreerdp-codec/rfx_dwt.c:52-71 | re-encoding a decoded line restores a high coefficient if and only if its odd sample did not wrap |
| Dwt.TopCoefficientLost | libfreerdp-codec/rfx_dwt.c:52-71 | a high coefficient that does not survive decoding and encoding |
| Dwt.RoomyBlockError | libfreerdp-codec/rfx_dwt.c:26-187 | one level of 2D decoding after encoding returns each sample with error -8 .. 2, for every width, although the LL band may wrap |
| Dwt.BlockError | libfreerdp-codec/rfx_dwt.c:26-187 | the same bound for every block of samples within -16383 .. 16383 |
| Dwt.RowJumps | libfreerdp-codec/rfx_dwt.c:50-71 | every line of any samples and width comes back within -2 .. 0, up to jumps by multiples of half the 16-bit range |
| Dwt.BlockIff | libfreerdp-codec/rfx_dwt.c:26-187 | for every block of every width, all samples come back within -8 .. 2 if and only if in every sample of the vertical pass the jumps of the horizontal one cancel and the store fits 16 bits |
| Dwt.TopSampleLost | libfreerdp-codec/rfx_dwt.c:26-187 | a block of four samples in which 32767 comes back as -32768 |
| DwtBlock.EncodeCols | libfreerdp-codec/rfx_dwt.c:125-141 | the vertical loops leave the low and the high band of every column in the two halves of the scratch buffer |
| DwtBlock.EncodeRow | libfreerdp-codec/rfx_dwt.c:157-177 | one row becomes its high and low bands at their places; no other value changes |
| DwtBlock.EncodeBlock | libfreerdp-codec/rfx_dwt.c:114-187 | the block in the flat buffer becomes HL, LH, HH, LL of the 2D transform; nothing else changes |
| DwtBlock.DwtEncode | libfreerdp-codec/rfx_dwt.c:189-194 | the three levels at their offsets |
| DwtInverse.EvenRows | libfreerdp-codec/rfx_dwt.c:52-60 | the even values of an L row and an H row |
| DwtInverse.OddRows | libfreerdp-codec/rfx_dwt.c:62-71 | the odd values, from the even ones in place, with the last one mirrored |
| DwtInverse.DecodeColumn | libfreerdp-codec/rfx_dwt.c:83-104 | one column of the block, even rows and then odd rows |
| DwtInverse.DecodeBlock | libfreerdp-codec/rfx_dwt.c:26-105 | the four bands in the flat buffer become the block of the 2D inverse; nothing else changes |
| DwtInverse.DwtDecode | libfreerdp-codec/rfx_dwt.c:107-112 | the three levels backwards |
| DwtInverse.LevelError | libfreerdp-codec/rfx_dwt.c:26-194 | on flat buffers, decoding a level after encoding it moves every value of the block by -8 .. 2 |
| DwtInverse.LevelIff | libfreerdp-codec/rfx_dwt.c:26-194 | on flat buffers, for every place, width and block, the whole block stays within -8 .. 2 under exactly that condition |
| DwtGain.Commute | libfreerdp-codec/rfx_dwt.c:114-187 | the vertical and the horizontal low-pass filter, before rounding, commute on every block |
| DwtGain.TwoLevels | libfreerdp-codec/rfx_dwt.c:124-141 | two levels of the low-pass filter grow a line of 16 samples or more, whatever they are, by 104/64 at most, borders included, where two times the growth of one level would be 144/64 |
| DwtGain.LowTwoRange | libfreerdp-codec/rfx_dwt.c:189-194 | for every block within -4096 .. 4096, the low-low band of the second level stays within 10824 in spite of all roundings |
| DwtLevels.LevelShifted | libfreerdp-codec/rfx_dwt.c:26-105 | decoding a level whose four bands are each off by a range of errors: how far every sample is off |
| DwtLevels.ThreeLevelError | libfreerdp-codec/rfx_dwt.c:107-194 | over the whole range of the codec's samples, three levels of decoding from ten bands that are off by e[0] .. e[9] return every sample of a 64 x 64 block within -24 .. 6, widened by the sum of the errors weighted 1, 3, 3 and 9 |
| DwtLevels.EncoderCode | libfreerdp-codec/rfx_dwt.c:189-194 | the three in-place levels leave exactly the ten bands of the nested transforms |
| DwtLevels.DecoderLeaves | libfreerdp-codec/rfx_dwt.c:107-112 | for every buffer, the three levels backwards leave the block of the nested inverses and change nothing behind it |
| DwtLevels.BufferError | libfreerdp-codec/rfx_dwt.c:107-194 | the same error bound for every cell of a flat buffer decoded from a code that is off cell by cell |
| DwtLevels.DriverError | libfreerdp-codec/rfx_dwt.c:107-194 | with nothing in between, the two drivers return every cell within -24 .. 6 |
| Sse2.HighLaneIff | libfreerdp-codec/rfx_sse2.c:532-535 | a lane computes the scalar high coefficient if and only if the two sums it halves fit 16 bits |
| Sse2.LowLaneIff | libfreerdp-codec/rfx_sse2.c:546-548 | a lane computes the scalar low coefficient if and only if the sum it halves fits 16 bits |
| Sse2.EvenLaneIff | libfreerdp-codec/rfx_sse2.c:336-340 | a lane computes the scalar even sample if and only if the sum it halves fits 16 bits |
| Sse2.OddLaneIff | libfreerdp-codec/rfx_sse2.c:367-370 | a lane computes the scalar odd sample if and only if the sum it halves fits 16 bits |
| Sse2.LanesOverflow | libfreerdp-codec/rfx_sse2.c:336-370 | one input for each of the four lane steps on which it leaves the scalar result |
| DwtSse2.EncodeVert | libfreerdp-codec/rfx_sse2.c:504-558 | the vertical kernel leaves the bands of the scalar vertical pass |
| DwtSse2Rows.LoadBehindIs | libfreerdp-codec/rfx_sse2.c:592-597 | the load one value behind, with the first lane patched in the first group, gives each lane its predecessor, whatever is in memory before the row |
| DwtSse2Rows.EncodeHoriz | libfreerdp-codec/rfx_sse2.c:560-612 | the horizontal kernel leaves the bands of the scalar horizontal pass; nothing else changes |
| DwtSse2Rows.EncodeBlockSse2 | libfreerdp-codec/rfx_sse2.c:614-641 | for every width that is a multiple of 8 and every block whose halved sums fit, the buffer is that of the scalar encoder, whatever lies outside it |
| DwtSse2Back.EvenHoriz | libfreerdp-codec/rfx_sse2.c:321-348 | the even pass in place of the low band leaves the even values of the row and nothing else changed |
| DwtSse2Back.Interleaved | libfreerdp-codec/rfx_sse2.c:372-376 | unpacking even and odd lanes gives sixteen consecutive values of the decoded row |
| DwtSse2Back.DecodeHoriz | libfreerdp-codec/rfx_sse2.c:301-383 | the horizontal kernel decodes every row although it overwrites the low band as it goes |
| DwtSse2Block.DecodeVert | libfreerdp-codec/rfx_sse2.c:385-464 | the vertical kernel decodes the block, even rows and then odd rows |
| DwtSse2Block.DecodeBlockSse2 | libfreerdp-codec/rfx_sse2.c:466-493 | for every width that is a multiple of 8 and all bands whose halved sums fit, the buffer is that of the scalar decoder |
| DwtSse2Block.DecodeFitsSmall | libfreerdp-codec/rfx_sse2.c:301-464 | all bands within -2047 .. 2047 fit, for every width |
| DwtSse2Block.DwtEncodeSse2 | libfreerdp-codec/rfx_sse2.c:643-650 | three levels leave the buffer of the scalar driver when every level fits |
| DwtSse2Block.DwtDecodeSse2 | libfreerdp-codec/rfx_sse2.c:495-502 | three levels leave the buffer of the scalar driver when every level fits |
| DwtSse2Range.EncodeFitsWide | libfreerdp-codec/rfx_sse2.c:504-612 | every block of samples within -10894 .. 10894 fits, for every width |
| DwtSse2Range.DecodeFitsNear | libfreerdp-codec/rfx_sse2.c:301-464 | bands that are off from those of a block fit on the way back, as long as errors and samples together stay below half of the 16-bit range |
| DwtSse2Range.LanesAgree | libfreerdp-codec/rfx_sse2.c:495-650 | for every buffer in the codec's range all three levels of the encoder fit, and those of the decoder on every code that is off by little enough, so both eight-lane drivers agree with the scalar ones |
| DwtSse2Range.SampleRange | libfreerdp-codec/rfx_sse2.c:495-650 | in particular on the code itself, for the whole range -4096 .. 4096 |
| Quantization.RestoredIff | libfreerdp-codec/rfx_quantization.c:22-65 | a coefficient comes back within 16.5 times 2^(q-6) if and only if the rounding does not leave 16 bits at the top |
| Quantization.TopSampleRounded | libfreerdp-codec/rfx_quantization.c:22-65 | the largest sample of an unscaled band does not come back |
| Quantization.QuantizedSmall | libfreerdp-codec/rfx_quantization.c:52-82 | quantized coefficients lie within -1024 .. 1024 for every quantization value 6 .. 15 |
| Quantization.BandRestored | libfreerdp-codec/rfx_quantization.c:35-82 | the same if-and-only-if for each coefficient of each of the ten sub-bands |
| Quantization.QuantizeBuffer | libfreerdp-codec/rfx_quantization.c:67-82 | the ten calls and the last one leave every coefficient rounded by the factor of its own band |
| Quantization.DequantizeBuffer | libfreerdp-codec/rfx_quantization.c:35-50 | likewise for the shifts back |
| Component.DifferentialEncode | libfreerdp-codec/rfx_differential.c:36-47 | in place, every value after the first becomes its difference to its predecessor's old value |
| Component.DifferentialDecode | libfreerdp-codec/rfx_differential.c:25-34 | in place, running sums |
| Component.DifferentialRoundTrip | libfreerdp-codec/rfx_differential.c:25-47 | running sums undo differences for all values, wrap-around included |
| Component.EncodeComponent | libfreerdp-codec/rfx_encode.c:220-242 | the bytes are the code of the differenced, quantized wavelet coefficients of the input |
| Component.DecodeComponent | libfreerdp-codec/rfx_decode.c:146-168 | the buffer is the inverse transform of the dequantized sums of the decoded values |
| Component.PipelineExact | libfreerdp-codec/rfx_encode.c:225-239 | the entropy and differential stages undo each other, so the dequantized buffer is that of the quantized coefficients, if and only if no trailing zero is met in run-length mode |
| Component.BytesRestored | libfreerdp-codec/rfx_decode.c:151-161 | the same from the bytes of a large enough buffer |
| Component.CodeShort | libfreerdp-codec/rfx_encode.c:237-239 | whatever the samples and the quantization, the code of a component takes fewer than 65536 bytes |
| ComponentError.CoefficientRange | libfreerdp-codec/rfx_dwt.c:189-194 | every coefficient of a block in the codec's range lies within 24356 |
| ComponentError.EntropyBack | libfreerdp-codec/rfx_decode.c:151-158 | whatever follows the code, the sums are the quantized coefficients, or those with the last one a step up |
| ComponentError.QuantizationError | libfreerdp-codec/rfx_decode.c:159-166 | without the entropy coder, every sample in range comes back within -24 .. 6, widened by the weighted sum of 16.5 times 2^(q-6) over the ten bands |
| ComponentError.LossyLanes | libfreerdp-codec/rfx_sse2.c:495-502 | the eight-lane decoder agrees with the scalar one on dequantized codes whose errors leave its lanes room |
| ComponentError.Transmit | libfreerdp-codec/rfx_encode.c:220-242 | a component encoded into bytes that it does not fill and decoded again, in both modes: every sample in range comes back within that bound, one more quantization step of the LL3 band included for a trailing zero |
| ComponentError.DefaultTable | libfreerdp-codec/rfx.c:49-63 | with the default quantization table these conditions hold, lanes included, and the weighted sum is 2632, or 2664 with a trailing zero |
| RfxMessage.RectsBack | libfreerdp-codec/rfx.c:362-373 | the first n rectangles of a list are read back from its bytes, for every n |
| RfxMessage.QuantsBack | libfreerdp-codec/rfx.c:455-472 | nibble pairs give back every quantization table with entries up to 15 |
| RfxMessage.TileBack | libfreerdp-codec/rfx.c:376-405 | position, quantization values and the three component slices of a composed tile |
| RfxMessage.TilesBack | libfreerdp-codec/rfx.c:484-502 | the first n tiles of a list, for every n, each found through the length of the one before |
| RfxMessage.FrameRoundTrip | libfreerdp-codec/rfx.c:505-588 | parsing a composed frame visits exactly its four blocks and recovers rectangles, quantization values, tile positions and component bytes, whatever follows; of longer lists as many entries as the count modulo 2^16 says |
| RfxMessage.AllReadIff | libfreerdp-codec/rfx.c:344-503 | all rectangles are read back if and only if there are fewer than 65536, and all tiles if and only if there are fewer than 65536 |
| RfxMessage.HeaderRoundTrip | libfreerdp-codec/rfx.c:219-326 | parsing a composed header recovers version, size, flags and entropy coder |
| RfxMessage.MessageRoundTrip | libfreerdp-codec/rfx.c:505-588 | both together for the first message |
| RfxComposer.ComposeTile | libfreerdp-codec/rfx.c:735-775 | skipped lengths are filled in afterwards, so the stream grows by exactly the tile block, whatever the skipped bytes held |
| RfxComposer.ComposeTileset | libfreerdp-codec/rfx.c:777-864 | nested tiles and two patched lengths leave exactly the tileset block of the whole grid |
| RfxComposer.ComposeRegion | libfreerdp-codec/rfx.c:707-733 | the region block of all rectangles |
| RfxComposer.ComposeHeader | libfreerdp-codec/rfx.c:681-691 | the four header blocks |
| RfxComposer.Encoder.ComposeMessage | libfreerdp-codec/rfx.c:885-893 | header on the first frame only, then the blocks of the frame; the frame counter moves on |
| RfxComposer.Encoder.TableIs | libfreerdp-codec/rfx.c:799-816 | without a table of its own the encoder uses the ten default values for all three components |
| RfxComposer.PixelCovered | libfreerdp-codec/rfx.c:812-851 | every pixel of an image of any size lies in exactly one tile of the grid |
| RfxComposer.TilesFill | libfreerdp-codec/rfx.c:812-851 | a position lies in a tile if and only if it lies in the image, so the last tiles end where the image does |
| RfxComposer.TileGridAt | libfreerdp-codec/rfx.c:842-851 | tile (x, y) stands at its row-major place in the message |
| RfxParser.Decoder.ProcessTilesetBlock | libfreerdp-codec/rfx.c:407-503 | quantization table and tiles as the format defines them, with the early returns: none without a table, no tiles with a count of zero |
| RfxParser.Decoder.Process | libfreerdp-codec/rfx.c:505-588 | for every byte string the loop ends and leaves what the format's definition says of a new message, whose lists start empty |
| RfxTransfer.ImageBack | libfreerdp-codec/rfx.c:505-893 | for every image, table and rectangle list within the 16-bit counts, parsing what was composed recovers the rectangles, the quantization values and, for every tile (x, y), the codec's bytes and table entries at (64x, 64y) in row-major order; every pixel is painted by exactly one tile, the one it was cut from |
| RfxTransfer.GridReadIff | libfreerdp-codec/rfx.c:438-443 | the number of tiles read is the number composed modulo 2^16, and the grid is read back if and only if it has fewer than 65536 tiles |
| RfxTransfer.SquareImageLost | libfreerdp-codec/rfx.c:812-826 | an image of 16384 x 16384 pixels is read back without tiles |
| RfxTransfer.Transfer | libfreerdp-codec/rfx.c:505-893 | an encoder composing into a stream and a decoder processing what it appended: the decoder holds the whole image, from every frame number on |
| WireFormats.HeaderIs | libfreerdp-codec/rfx.c:625-691 | the 47 bytes of a composed header |
| WireFormats.PropertiesAre | libfreerdp-codec/rfx.c:663-677 | the fields of the context's and the tilesets' properties |
| WireFormats.FrameIs | libfreerdp-codec/rfx.c:693-882 | the bytes of the four blocks of every frame, with their lengths and counts |
| WireFormats.RectIs | libfreerdp-codec/rfx.c:722-728 | the bytes of a rectangle |
| WireFormats.TileIs | libfreerdp-codec/rfx.c:735-775 | the bytes of a tile |
| MppcTokens.ParseCode | libfreerdp-core/mppc.c:740-1000 | the bit-by-bit reader gives back every list of well-formed literals and copies coded by the tables, in both variants, whatever fewer than eight bits follow |
| MppcExpansion.CopyAt | libfreerdp-core/mppc.c:1002-1030 | for every history, position, length and offset, byte i of a copy is the one that lay at (position - offset + i mod offset) in the ring before, overlap and wrap-around included |
| MppcExpansion.ExpansionExplained | libfreerdp-core/mppc.c:738-1088 | what a token list makes of the history, without recursion: every token is written behind the ones in front of it, a copied byte is one already written or one of the old history, and nothing else changes |
| MppcExpansion.ExplainedOnce | libfreerdp-core/mppc.c:738-1088 | no other history fits that description |
| MppcWindow.Refill | libfreerdp-core/mppc.c:815-865 | after the refill loop window, partial byte and unread bytes are still exactly the unread bits, and the window is full or the input used up |
| MppcWindow.Consume | libfreerdp-core/mppc.c:756-809 | shifting the window moves past exactly the bits read |
| MppcWindow.LookupHead | libfreerdp-core/mppc.c:756-809 | the literal and offset tables on the 32-bit window agree with the bit-by-bit reader |
| MppcWindow.LookupLength | libfreerdp-core/mppc.c:896-1000 | the length table on the 32-bit window agrees with the bit-by-bit reader |
| MppcDecoder.Decoder.constructor | libfreerdp-core/mppc.c:1238-1264 | a new history starts at its front |
| MppcDecoder.Decoder.CopyMatch | libfreerdp-core/mppc.c:1002-1030 | after the two-part wrapped copy, byte i is the one that lay at (position - offset + i mod offset) modulo 65536 before, overlap included |
| MppcDecoder.Decoder.Inflate | libfreerdp-core/mppc.c:738-1088 | for every packet the loop leaves the LZ77 expansion of the tokens of its bits, every byte of which is explained as above |
| MppcSession.Decompress | libfreerdp-core/mppc.c:646-1095 | history, position, offset and length after a packet, with every combination of flags |
| MppcSession.PacketExplained | libfreerdp-core/mppc.c:646-1095 | the same explanation for every packet, compressed or not and with every combination of flags |
| MppcSession.RangeIff | libfreerdp-core/mppc.c:677-708 | offset and length delimit exactly what the packet produced if and only if the history is not flushed from another position without restart |
| MppcSession.FlushWithoutFront | libfreerdp-core/mppc.c:692-698 | a flush without the front flag that reports a wrong length |
| MppcSession.RunIsOneExpansion | libfreerdp-core/mppc.c:1090-1092 | between restarts a run of packets is one expansion: packet borders leave no trace |
| MppcSession.CodedPacket | libfreerdp-core/mppc.c:710-1088 | a packet that codes a token list leaves the list's LZ77 expansion, in both variants |
| NscPlane.PutIs | libfreerdp-codec/nsc.c:37-45 | storing a byte and or-ing its sign into the bit stream sets that 9-bit sample and no other |
| NscPlane.ShiftedIs | libfreerdp-codec/nsc.c:39-41 | truncated byte and extracted sign are the signed 9-bit value of the shifted byte |
| NscScaling.ClExpand | libfreerdp-codec/nsc.c:28-48 | every sample of the plane becomes the signed 9-bit value of its shifted byte |
| NscScaling.CropLuma | libfreerdp-codec/nsc.c:84-97 | for every width and height, row padding is skipped and nothing else |
| NscChroma.Guards | libfreerdp-codec/nsc.c:106-124 | the tests on the cursor hold exactly when the neighbouring cells exist |
| NscChroma.CursorNextRow | libfreerdp-codec/nsc.c:126-135 | at the end of a row pair the cursor lands on the next pair, for odd and even widths |
| NscChroma.SupersampleChroma | libfreerdp-codec/nsc.c:84-140 | for every width and height the 9-bit sample at (x, y) is the subsampled one at (x/2, y/2) |
| Nsc.HighByteClamps | libfreerdp-codec/nsc.c:179-185 | on the sums of 9-bit samples the high-byte test is a clamp to 0 .. 255 |
| Nsc.ConvertedIff | libfreerdp-codec/nsc.c:173-175 | a pixel is converted if and only if it holds the clamped sums for which red less blue is co without its low bit, green less luma is half of cg, and red and blue lie around luma less that half |
| Nsc.ColourBack | libfreerdp-codec/nsc.c:173-175 | for every colour, sent with luma (r + 2g + b) / 4, co = r - b and cg = (2g - r - b) / 2, which of the three sums come back and which are off by one |
| Nsc.ColourExactIff | libfreerdp-codec/nsc.c:173-175 | a colour comes back exactly if and only if r + 2g + b is a multiple of four |
| Nsc.YcocgToRgb | libfreerdp-codec/nsc.c:149-196 | in place, every pixel becomes the clamped colour of its samples, whose sums balance as above |
| Nsc.Context.constructor | libfreerdp-codec/nsc.c:307-337 | plane sizes and clear bit streams |
| Nsc.Context.ColorLossRecover | libfreerdp-codec/nsc.c:198-206 | both chroma planes are widened, luma is untouched |
| Nsc.Context.ChromaSupersample | libfreerdp-codec/nsc.c:50-147 | all three planes are brought to full size |
| Nsc.Context.Process | libfreerdp-codec/nsc.c:368-376 | for every size, with and without subsampling, every pixel is the clamped colour of the luma sample at (x, y) and the signed 9-bit values of the shifted chroma samples that cover it |
| PlanarRle.ZigzagRoundTrip | libfreerdp-codec/bitmap.c:317-328 | zig-zag bytes give back every delta from -128 to 127 |
| PlanarRle.ZigzagOrder | libfreerdp-codec/bitmap.c:319-328 | even bytes are the deltas from 0 up and odd ones those from -1 down |
| PlanarRle.Delta | libfreerdp-codec/bitmap.c:329-330 | every pixel is the pixel above plus a delta in that range, modulo 256 |
| PlanarRle.EveryPlaneCoded | libfreerdp-codec/bitmap.c:247-349 | every plane has a code of raw segments |
| PlanarDecoder.CodeRead | libfreerdp-codec/bitmap.c:276-284 | the control byte of every raw, short-run and long-run segment is read as that segment |
| PlanarDecoder.DecodeLine | libfreerdp-codec/bitmap.c:268-344 | the segments of a line fill it to exactly its width, from its own bytes only |
| PlanarDecoder.ProcessRlePlane | libfreerdp-codec/bitmap.c:247-349 | for every plane and every code of it, the rows come back, the rest of the output is untouched and the byte count is the length of the code |
| FastPath.UpdateHeaderRoundTrip | libfreerdp-core/fastpath.c:94-112 | code, fragmentation and compression are read back from the update header |
| FastPath.PacketHeaderRoundTrip | libfreerdp-core/fastpath.c:114-141 | every packet length up to 0x3FFF and the encryption flag are read back |
| FastPath.ShortHeaderRead | libfreerdp-core/fastpath.c:135-139 | a length below 128 is read from one byte |
| WireFormats.FragmentIs | libfreerdp-core/fastpath.c:664-682 | the header byte of single, first, next and last fragments |
| WireFormats.HeaderBits | libfreerdp-core/fastpath.c:94-102 | which bits of every header byte are read as code, fragmentation and compression |
| WireFormats.PacketHeaderIs | libfreerdp-core/fastpath.c:671-677 | the three header bytes of a packet, and the longest data for each security |
| FastPath.FastPathReceiver.RecvUpdates | libfreerdp-core/fastpath.c:326-340 | the updates of a packet, one after the other |
| FastPath.FastPathReceiver.RecvPacket | libfreerdp-core/rdp.c:812-838 | a packet as its header says, decrypted behind the security bytes |
| FastPath.ReceiveCarried | libfreerdp-core/rdp.c:812-838 | a packet is taken for exactly the fragment it carries, whatever its security bytes are |
| FastPath.Reassembles | libfreerdp-core/fastpath.c:249-324 | the fragments of one update deliver it exactly once, from every state of the reassembly stream |
| FastPath.RunDelivers | libfreerdp-core/fastpath.c:249-324 | every run of non-empty updates is delivered in order with the same codes, wherever the parsers leave the stream |
| FastPath.PacketLengths | libfreerdp-core/fastpath.c:660-681 | every packet is at most 0x3FFF bytes long and its length reads back unchanged |
| FastPathSender.BuildPacket | libfreerdp-core/fastpath.c:671-693 | headers, signature and encryption in place make the packet of the data that was there and touch nothing behind it |
| FastPathSender.SendUpdate | libfreerdp-core/fastpath.c:635-709 | although each header overwrites the end of the packet sent before, the packets carry the fragments of the original data; the loop stops early only when the transport fails |
| VirtualChannel.WireRoundTrip | libfreerdp-core/channel.c:75-78 | total size, flags and data of a chunk are read back |
| WireFormats.ChunkFlags | libfreerdp-core/channel.c:55-73 | the flags of only, first, middle and last chunks |
| WireFormats.ChunkIs | libfreerdp-core/channel.c:75-78 | the bytes of a chunk |
| VirtualChannel.Transport.ChannelSend | libfreerdp-core/channel.c:31-88 | false exactly for an unknown channel; otherwise the chunks of the message in order |
| VirtualChannel.MessageArrives | libfreerdp-channels/wtsvc.c:42-79 | the chunks of a message enqueue it once and pass the size check, for every chunk size |
| VirtualChannel.InterleavedArrive | libfreerdp-channels/wtsvc.c:81-103 | for every interleaving with other channels, a channel's queue grows by exactly the messages sent on it, in order |
| VirtualChannel.ServerPeer.ReceiveChannelData | libfreerdp-channels/wtsvc.c:81-103 | a packet changes only the first channel with its id, and only if that is open, which is what the result says |
| VirtualChannel.ServerPeer.ReceiveAll | libfreerdp-channels/wtsvc.c:42-103 | on the channel objects in place: after packets of any channels in any order, an open channel's queue has grown by exactly the messages sent on it and no size check failed |
| Connection.ActiveIsSafe | libfreerdp-core/rdp.c:871-924 | whatever packets arrive and whichever sends fail, an active client has joined all channels, completed licensing and received the four finalization PDUs since the connect |
| Connection.StepKeeps | libfreerdp-core/rdp.c:871-924 | every packet in every state keeps the connection invariant |
| Connection.FinalizationIff | libfreerdp-core/rdp.c:841-911 | for every client in finalization and every packet, fast-path ones included, the client becomes active if and only if the packet is accepted and the four PDUs have arrived before it or in it, even if it also deactivates |
| ConnectionProgress.NextPhase | libfreerdp-core/rdp.c:871-924 | for every client that keeps the invariant and every packet, the next state is exactly the one of a table: each change of state if and only if its condition on the packet, the sends and the fields holds |
| ConnectionProgress.ChannelJoinIff | libfreerdp-core/connection.c:371-435 | joining ends if and only if the sends succeed on the confirm of the last channel, or of the global one when there are no others |
| ConnectionProgress.LicensingIff | libfreerdp-core/connection.c:437-454 | licensing ends if and only if the packet completes the license, or is accepted while the license is complete already |
| ConnectionProgress.OrdinaryConnects | libfreerdp-core/rdp.c:871-924 | from every fresh client, whatever its channels: responses, joins in order, any number of pending licenses and a completed one, a demand active and the four PDUs in any order and grouping are all accepted and end in an active client that is ready and has asked for every channel once, in order |
| Connection.PdusOutcome | libfreerdp-core/rdp.c:774-806 | a packet's PDUs are accepted if and only if none fails to decompress, and exactly the finalizing ones among them are recorded |
| Connection.ReactivatedAtOnce | libfreerdp-core/activation.c:276-303 | after a deactivation and a new demand active, the next packet makes the client active again if and only if it is accepted: the four PDUs need not come a second time |
| RdpClient.Rdp.constructor | libfreerdp-core/connection.c:115-116 | a connection starts in negotiation with no finalization PDU received, and within the invariant |
| RdpClient.Rdp.McsChannelJoinConfirm | libfreerdp-core/connection.c:371-435 | flags, next request and state, with every failure path |
| RdpClient.Rdp.RecvSharePdus | libfreerdp-core/rdp.c:774-806 | the PDUs of a packet in order, up to one that fails |
| RdpClient.Rdp.RecvCallback | libfreerdp-core/rdp.c:871-924 | every packet in every state moves the state exactly as that table says and keeps the invariant of the client's fields; a client that is active afterwards has joined every channel, is licensed and has received the four PDUs |
| RdpClient.Rdp.ClientConnect | libfreerdp-core/connection.c:115-141 | whatever arrives, connecting succeeds if and only if the client is active, then with every channel joined, licensed and finalized, at the first packet that makes it so; it fails only at a packet that is refused; and it does succeed when every packet is accepted and they lead to an active client |
| RdpClient.ConnectInOrder | libfreerdp-core/connection.c:68-142 | a new client with any channels connects on every ordinary sequence |
| JoinHandshake.RdpServer.AcceptChannelJoinRequest | libfreerdp-core/connection.c:644-674 | the channel is confirmed and marked, and the state changes once everything has joined |
| JoinHandshake.ClientStep | libfreerdp-core/connection.c:371-435 | the client's step succeeds on the next confirm and keeps the joint invariant |
| JoinHandshake.ServerStep | libfreerdp-core/connection.c:644-674 | the server's step keeps the joint invariant |
| JoinHandshake.HandshakeSafe | libfreerdp-core/connection.c:371-435 | in every run requests go out once each in the order user, global, channel 0 .. n-1; a client in licensing means a server that has marked all of them and changed state; until then some party can step |
| PluginQueue.StepKeeps | libfreerdp-channels/libchannels.c:507-577 | every atomic step of every writer, of every event pusher's signal and of the main thread keeps the queue invariant |
| PluginQueue.NoLostWakeUp | libfreerdp-channels/libchannels.c:903-954 | over all interleavings a non-empty queue is announced, items are sent once in enqueue order, and an idle main thread with no writer at work has the signal set |
| PluginQueue.Drains | libfreerdp-channels/libchannels.c:903-954 | from every reachable state without writers at work the main thread alone sends everything that was enqueued and takes back every signal |
| PluginQueue.LoopsEndIff | libfreerdp-utils/wait_obj.c:154-169 | the clear loop ends if and only if the pipe is empty, the drain loop if and only if the queue is |
| PluginQueue.WriteArrives | libfreerdp-channels/libchannels.c:507-527 | from every reachable state without writers at work, whatever a writer enqueues can be sent, behind everything enqueued before |
| EventMailbox.StepToken | libfreerdp-channels/libchannels.c:564-577 | every step keeps the sum of semaphore count, occupied slot, pushers about to store and a popper about to signal at one; a store meets an empty slot |
| EventMailbox.MailboxSafe | libfreerdp-channels/libchannels.c:956-969 | over all interleavings no event is overwritten and events are popped in the order stored |
| EventMailbox.TestIff | libfreerdp-channels/libchannels.c:960-961 | the test of the slot leads on if and only if the slot is occupied, and changes nothing |
| EventMailbox.Pops | libfreerdp-channels/libchannels.c:956-969 | from every reachable state the popper's own steps take whatever has been stored, empty the slot and give the token back |
| EventMailbox.PushArrives | libfreerdp-channels/libchannels.c:564-577 | while connected, from every reachable state, the events stored so far, the event of a pusher that holds the token and then any other thread's event can be popped, in that order |
| EventMailbox.PusherReturns | libfreerdp-channels/libchannels.c:564-577 | from every reachable state a pusher gets out again, having stored its event and set the signal, or given the token back after a disconnect |
| EventMailbox.DisconnectStops | libfreerdp-channels/libchannels.c:566-571 | after a disconnect nothing is stored any more, in every run |

## Left out

- RlgrCoder.RlgrDecode: the shift of the unary part by kr is computed in unbounded integers; a unary prefix of about 2^21 ones or more would overflow the C int.
- ComponentError.LossyLanes: a sufficient condition on the quantization values; for coarser ones the condition of DwtDecodeSse2 has to be checked for the buffer at hand.
- ComponentError.Transmit: says nothing of a code that fills its buffer, since it may have been cut.
- DwtLevels.LevelShifted: errors that leave 16 bits are excluded; Dwt.BlockIff has the exact condition for bands without errors.
- Component.EncodeComponent: the colour conversion in front of the component stages is not part of this model.
- NscScaling.ClExpand: colour-loss levels of 0 and above 23 are excluded, since the shifted byte then leaves the C int; the code does not check the level.
- Nsc.Context.Process: the same restriction on the colour-loss level.
- Nsc.Context.constructor: widths above 65528 are excluded, since the padded width then wraps to 0 in its 16-bit variable; plane sizes are not truncated to 32 bits.
- MppcSession.Decompress: packets whose output does not fit the history buffer are excluded, since the code does not check for them.
- FastPathSender.SendUpdate: with FIPS security the sender leaves the pad byte unset and uses the non-FIPS cipher, which a FIPS receiver would not undo; the model treats all security sizes with one invertible cipher.
- FastPath.FastPathReceiver.RecvUpdates: compressed updates and updates longer than the packet are dropped instead of decompressed or read beyond the end.
- RfxTransfer.ImageBack: tilesets of 2^32 bytes or more, whose length field would wrap, are excluded; component codes are assumed below 65536 bytes, as Component.EncodeComponent ensures; the codec of a tile is a function of its place.
- RfxParser.Decoder.Process: blocks that end beyond the input are cut off instead of read beyond the end.
- PlanarDecoder.ProcessRlePlane: inputs that are not the code of a plane are excluded, since the code checks neither bound.
- PluginQueue.NoLostWakeUp: an item whose channel is no longer in the settings is dropped by the main thread and counts as sent; closing the channels while writers run is not covered.
- Connection.ActiveIsSafe: starts from a fresh client; what a second connect inherits from the first is covered only as far as RdpClient.Rdp.ClientConnect resets it, and server redirection not at all.
- RdpClient.Rdp.ClientConnect: the packets are given as a list, and the waiting in between is not modelled.
- VirtualChannel.InterleavedArrive: dynamic virtual channels, whose data the code drops, are not covered.
- Encryption, TLS, NLA, certificates and licensing keys: calls into foreign libraries; a cipher is a pair of inverse functions.
- Sockets, the transport's framing and plugin loading: input and output.
- The RDP 6 and 6.1 bulk decompressors: unfinished in the source.
- The interleaved 8, 16 and 24 bpp bitmap decoders, the NSCodec run-length stage and the final ARGB interleaving: flat loops.
- NEON kernels, and the SSE2 versions of colour conversion and quantization.
- Capability sets, GCC, client info, input events, orders, pointers and caches: long lists of independent fields.
- Reading from a virtual channel in the server's channel API: it looks at its queue outside the lock.
