# Verified model of the QPSK link and its LTP engine

The program is a software modem with a reliable transport on top. This project models its two
stacks and a small concurrent queue, and proves what they are for.

**The coding chain.** A payload is framed (35 header bits, payload, CRC-32), the payload section is
convolutionally coded (constraint length 7, generators 171 and 133 octal, rate 1/2 or punctured to
3/4), and the bits are mapped to Gray-coded QPSK symbols. The receiver makes hard decisions, finds
the frame length in the header, runs a 128-state Viterbi decoder and checks the CRC. `Viterbi` and
`ViterbiDecoder` prove the decoder optimal against a brute-force specification, and `ViterbiTies` which
of several optimal paths it takes; `ColumnDistances` proves how much weight the code gathers over
twenty steps, and `FecCorrection` what the two together buy against up to four wrong bits; `Crc32`,
`CrcBursts`, `Frames` and `FrameTheorems` do the same for the CRC and the frame; `Link` and
`LinkTheorems` put the chain together from payload to payload.

Round trips alone would hold of any code both ends agree on, so the format itself is stated apart from
the functions that produce it: `CodeWords` gives every coded bit as an exclusive or of payload bits,
`CrcValues` the CRC as the complemented remainder of a polynomial division, `AirFormat` every symbol and
header bit on the air, and `Phase` the phase correction the receiver takes from the preamble, which is
proved to undo any turn and gain of the channel.

**LTP.** `LtpEngineSpec` gives each handler of the engine as a function from an engine state to a
new state, the segments sent and the callbacks fired. `LtpEngines.LtpEngine` is the object itself:
fields updated in place, loops over the block and the gaps, every method proved against its
function. `LtpSystem` puts two engines with distinct ids on a network that may lose, duplicate and
reorder, with timers that may expire at any moment, and keeps the history the properties talk
about: the blocks, what has arrived, what each live receiver session has taken in and whether it has seen
the end of its block, the retransmission rounds made for each block, and what the applications were
told. `LtpSystemSafety` and `LtpRuns` prove data safety, completion soundness and session
conservation for every run; `LtpRounds` bounds the retransmission rounds; `LtpDeliveries` accounts
for every delivery of every block. `LtpRepair` proves that one selective retransmission is enough
when one pass is lossy, `LtpRepeatedLoss` that repair survives as many lossy passes as the limit
allows, and `LtpReplay` that this holds from every state a run can reach, and that a replayed exchange
delivers its block twice. `LtpRecovery` proves what every timer owes the other end, and that one expiry
gets a stalled block going again; `LtpWire` states the octets and numbers of whatever is sent,
`LtpNumbers` that serial numbers are consecutive, and `LtpTally` and `LtpIntake` that the diagnostics
count what happened. `Ranges`, `ReceptionTrackers`, `Sdnv`, `LtpSegment` and `LtpSegmentCodec`
are the parts underneath: the tracker as a set of bytes, exact gaps, and codecs that lose nothing.

**Between the threads and on the stream.** `SpscQueues` splits the ring buffer's operations into
atomic steps and proves every interleaving linearizable. `StreamFraming` proves that
length-prefixed messages come out whole and in order however the stream is cut into reads.

Segments on the system's network are values rather than bytes; `LtpRuns.InFlightSurvivesTheWire`
shows that encoding and decoding them changes nothing. The tracker's list of a session is a value
inside the session, built by the function that `ReceptionTrackers.ReceptionTracker.AddRange` is
proved to compute.

Where the code and its own comments differ, the model follows the code:

- `symbol_to_dibit` is described in terms of constellation indices that do not match the table; the
  model uses the table and the quadrant tests as written.
- LTP segment type numbers and the two separate extension-count bytes are the program's own, not
  those of section 3 of RFC 5326.
- A retransmission limit of 255 is accepted but never enforced, because the counter has 8 bits;
  `LtpEngineInvariant.LimitWorksIff` and, for whole runs, `LtpRounds.LimitBoundsRoundsIff` state
  exactly which limits work.
- A block is delivered once per receiver session, not once: a finished session is forgotten, and a
  late segment opens another. `LtpReplay.DeliveredTwice` gives the run, `LtpDeliveries` the exact
  account and the exact condition under which an acknowledgment delivers.
- `is_complete` asks for a single range, so it misses a covered block when a later range exists
  (`Ranges.CompleteMissesLaterRange`); with nothing tracked beyond the block it is exact, and the
  system invariant shows that this is always so.
- The size check of the framing helper compares sizes in 32-bit arithmetic;
  `StreamFraming.OverrunIff` and `StreamFraming.FramingWorksIff` state exactly when that goes wrong.
- `size()` of the ring buffer is called an approximation; `SpscQueues.SizeIsRightIff` says when it
  is right.

## Model

| member | source | states |
|---|---|---|
| FecEncoders.FecEncoder.CodedLength | src/fec_encoder.cpp:32-57 | the announced length is the number of bytes the encoder really produces for that many input bytes, at both rates |
| FecEncoders.FecEncoder.Encode | src/fec_encoder.cpp:62-133 | unpacking, tail, convolution, puncturing and packing loops together compute the code word of the payload |
| CodeWords.ConvTaps | include/qpsk_b200/fec.h:45-46 | of the two bits of every step the first is generator 171 (octal) on the input bits, taps 0, 1, 2, 3 and 6 steps back, and the second generator 133, taps 0, 2, 3, 5 and 6 |
| CodeWords.EncodedBit | src/fec_encoder.cpp:62-133 | every bit the encoder puts out, at both rates, as an exclusive or of payload bits: the right generator for its position, every third and sixth bit dropped at rate 3/4, zeros to fill the last byte |
| CodeWords.EncodedSize | src/fec_encoder.cpp:32-57 | a code word has two bits for every payload bit and for six tail bits, two thirds of them, rounded up, at rate 3/4, in whole bytes |
| FecEncoders.PackBits | src/fec_encoder.cpp:109-130 | whole bytes most significant bit first, a final partial byte left-aligned with zeros |
| ConvCode.KeptCountThreeQuarters | src/fec_encoder.cpp:42-56 | four bits per full period plus the pattern's ones in the remainder is the number of bits puncturing keeps |
| ConvCode.PunctureAt | src/fec_encoder.cpp:95-107 | a kept bit lands at the position given by the number of bits kept before it, and puncturing keeps exactly that many |
| ViterbiDecoder.Forward | src/fec_decoder.cpp:123-163 | for a received word that cannot reach the infinite metric, after all steps every register's metric and survivor are optimal, and every recorded path is the least from the end of those that explain its metric |
| Viterbi.StepKeepsOptimal | src/fec_decoder.cpp:132-163 | one add-compare-select step turns an optimal metric row into the optimal next row |
| Viterbi.MetricIsBruteForceMinimum | src/fec_decoder.cpp:123-163 | an optimal metric is the minimum distance over all inputs ending in its register, attained by one of them, and infinite exactly when there is none |
| ViterbiDecoder.RelaxRow | src/fec_decoder.cpp:136-160 | the two inner loops over registers and input bits compute one step of the recurrence, writing only that step's survivors; of predecessors that explain a metric equally well the lowest stays |
| ViterbiDecoder.BestState | src/fec_decoder.cpp:166-175 | the chosen final state has the least metric of all, the lowest-numbered one on ties |
| ViterbiDecoder.Traceback | src/fec_decoder.cpp:180-185 | walking the survivors back yields exactly the path they record for that state |
| ViterbiDecoder.Search | src/fec_decoder.cpp:97-185 | the decoded bits are a maximum-likelihood path, no input of that length being closer to the received word on its known positions, and of all such paths the one that is least when read from its newest bit backwards |
| ViterbiTies.StepKeepsLeast | src/fec_decoder.cpp:136-160 | one step of the recurrence, with its strict comparison, keeps every recorded path least from the end |
| ViterbiTies.ChosenIsUnique | src/fec_decoder.cpp:166-185 | there is only one such path for a received word |
| FecDecoders.DecodesToOnce | src/fec_decoder.cpp:45-216 | the decoder's output is a function of what it receives and the announced length |
| Viterbi.MakeTransitions | src/fec_decoder.cpp:106-121 | the precomputed table holds the next register and both outputs of every register and bit |
| FecDecoders.Depuncture | src/fec_decoder.cpp:75-95 | every kept position gets its received bit, every punctured or missing one an erasure |
| FecDecoders.UnpackTrimmed | src/fec_decoder.cpp:64-73 | the bits of the received bytes, cut off at the exact number of coded bits |
| FecDecoders.PackOutput | src/fec_decoder.cpp:187-198 | the decoded data bits in bytes, tail dropped |
| FecDecoders.CountErrors | src/fec_decoder.cpp:204-213 | the count is the Hamming distance of the re-encoded and the received bytes |
| FecDecoders.FecDecoder.Decode | src/fec_decoder.cpp:45-216 | the output is read off the chosen maximum-likelihood path, and the error counter grows by the bits in which its re-encoding differs from what came in |
| ColumnDistances.ColumnWeight | include/qpsk_b200/fec.h:45-46 | any input starting with a one has output weight at least 2, 3, 4, 5, 7 and 9 after 1, 2, 4, 8, 16 and 20 steps, however it goes on |
| ColumnDistances.WeightFromFirstOne | include/qpsk_b200/fec.h:45-46 | the whole code word of an input weighs at least what its steps from the first one on guarantee |
| FecCorrection.DistanceIsWeight | src/fec_encoder.cpp:78-93 | the code is linear: the distance of two code words is the weight of the difference of their inputs |
| FecCorrection.MinimumDistance | include/qpsk_b200/fec.h:45-48 | two inputs that first differ at a position are at least the column distance of the remaining length apart on the air |
| FecCorrection.CorrectedPrefix | src/fec_decoder.cpp:45-216 | every data bit from which more than twice as much weight is guaranteed as coded bits are wrong is decoded right; the guarantee ends at nine, so this speaks of up to four wrong bits |
| FecCorrection.CorrectsOneError | src/fec_decoder.cpp:132-215 | any one flipped bit of an encoded payload leaves the decoded payload intact and is counted as exactly one error |
| FecCorrection.FewErrorsSpareAllButTheEnd | src/fec_decoder.cpp:132-198 | any two, three or four flipped bits cost at most the last one, nine or thirteen payload bits, any one flipped bit none |
| FecCorrection.ZeroDistanceIsUnique | src/fec_decoder.cpp:75-163 | at both rates only the sent path is at distance zero from the clean received word |
| FecCorrection.CleanRoundTrip | src/fec_decoder.cpp:45-216 | at both rates, decoding the encoder's own output returns the payload and counts no error |
| Crc32.MakeCrc32Table | src/frame_builder.cpp:14-28 | each table entry is its index after eight reflected polynomial steps |
| Crc32.ComputeCrc32 | src/frame_builder.cpp:41-47 | the byte loop computes the table-driven CRC of the whole message |
| Crc32.TableDrivenIsBitSerial | src/frame_builder.cpp:14-47 | on every byte sequence the table-driven CRC equals the bit-serial reflected CRC |
| CrcValues.CrcIsRemainder | src/frame_builder.cpp:14-47 | read from its lowest bit up, the CRC is the complement of the remainder of the message, its first 32 bits complemented, modulo the polynomial with exponents 32, 26, 23, 22, 16, 12, 11, 10, 8, 7, 5, 4, 2, 1 and 0 |
| CrcValues.CrcBit | src/frame_builder.cpp:41-47 | the same bit by bit, from the bits of the message bytes |
| Crc32.DetectsFourByteBurst | src/frame_builder.cpp:41-47 | messages of equal length that differ only within four consecutive bytes have different CRCs |
| CrcBursts.DetectsBitBurst | src/frame_builder.cpp:14-47 | messages of equal length that differ only within 32 consecutive bits, in the order the CRC takes them, have different CRCs |
| Frames.FrameBuilder.BuildFrame | src/frame_builder.cpp:49-138 | preamble, header fields, payload bits and CRC in order; the 16-bit length and 12-bit sequence number wrap, and the counter moves on by one |
| Frames.ExtractBits | src/frame_parser.cpp:14-20 | the value of a bit field, most significant bit first |
| Frames.ParseUnchecked | src/frame_parser.cpp:102-159 | fields, whole payload bytes and CRC at their offsets, nothing for a frame too short to hold them |
| Frames.VerifyCrc | src/frame_parser.cpp:161-188 | true exactly when the CRC over the header bytes and payload equals the stored one |
| Frames.Parse | src/frame_parser.cpp:28-100 | the unchecked frame marked valid if its CRC matches, nothing otherwise |
| FrameTheorems.HeaderBytesAreHeaderBits | src/frame_builder.cpp:64-85 | the bytes the CRC covers carry exactly the 35 header bits, zero-filled to a byte boundary |
| FrameTheorems.ParseOfBuilt | src/frame_parser.cpp:28-100 | parsing a built frame recovers every header field and the payload |
| FrameTheorems.RejectsBurst | src/frame_parser.cpp:92-99 | damage within twenty consecutive bits in front of the CRC field makes any accepted frame rejected, unless it hits only leftover bits, which belong to no payload byte |
| FrameTheorems.FlipRejectedIff | src/frame_parser.cpp:28-100 | one flipped bit makes any accepted frame rejected if and only if it is not a leftover bit, and flipping a leftover bit changes nothing |
| FrameTheorems.RejectsCrcDamage | src/frame_parser.cpp:92-99 | damage of any extent within the CRC field does too |
| FrameTheorems.RejectsAnyFlip | src/frame_parser.cpp:28-100 | any one flipped bit of a built frame makes it rejected |
| SymbolMapper.MapMethod | src/symbol_mapper.cpp:40-61 | dibit by dibit onto the constellation, an odd bit count padded with one zero and reported |
| SymbolMapper.DemapMethod | src/symbol_mapper.cpp:67-78 | two hard-decision bits per symbol |
| SymbolMapper.DemapOfMap | src/symbol_mapper.cpp:10-78 | demapping mapped bits, whatever symbols follow, gives the bits back |
| SymbolMapper.MappedSymbol | include/qpsk_b200/symbol_mapper.h:16-21 | every mapped symbol lies on the unit circle up to rounding; its first bit is the sign of the imaginary and its second that of the real part |
| Link.Encoder.Encode | src/encoder.cpp:91-191 | acquisition, doubled preamble, header, coded payload section with the CRC of the original payload, and tail; the builder and the diagnostics advance. What each symbol is, `AirFormat` says |
| Link.ReadFrameBits | src/decoder.cpp:109-158 | the frame length is read from the header, coded length included, and exactly that many bits are cut out; nothing if too few symbols or an unknown rate |
| Link.Decoder.DecodeCoded | src/decoder.cpp:173-191 | with FEC the payload is decoded first and the CRC of the original payload then verified |
| Link.Decoder.TryDecodeFrame | src/decoder.cpp:73-211 | from a frame start on, the phase is corrected from the preamble before it, the result is one the corrected symbols allow, and frames are counted when something is returned; with FEC the error total grows by the corrected bits of what was decoded even when the CRC fails, otherwise it stays |
| Phase.BpskMapPreamble | src/encoder.cpp:25-34 | bit by bit to one in-phase symbol each |
| Phase.EstimatePhaseCorrection | src/decoder.cpp:37-56 | the loop computes the correlation with the reference and from it the conjugate phase, or one when it is too weak |
| Phase.WeakIsUncorrected | src/decoder.cpp:50-53 | a correlation below 10^-10 leaves the symbols as they are |
| Phase.PreambleAddsUp | src/decoder.cpp:37-56 | the correlation of a turned and scaled preamble with the reference is its length times what the channel did |
| Phase.ChannelIsUndone | src/decoder.cpp:83-106 | behind such a preamble every data symbol comes out as it was sent, up to the gain |
| LinkTheorems.TransmittedStartsWith | src/encoder.cpp:91-191 | read from the end of its preamble, the transmitted stream carries exactly the frame's bits, whatever follows |
| LinkTheorems.ResultIsDetermined | src/decoder.cpp:73-211 | the corrected symbols decide what is returned |
| AirFormat.AcquisitionTurns | src/encoder.cpp:36-53 | the acquisition symbols start in the first quadrant, each one is its predecessor turned clockwise by a quarter, and all lie on the unit circle up to rounding |
| AirFormat.PreambleOnAir | src/encoder.cpp:25-34 | behind the acquisition the preamble goes out twice, plus one for a zero and minus one for a one, in phase |
| AirFormat.DataOnAir | src/encoder.cpp:91-191 | every data symbol carries two frame bits as the signs of its parts |
| AirFormat.TailOnAir | src/encoder.cpp:57-59 | the stream ends in six silent symbols |
| AirFormat.HeaderOnAir | src/frame_builder.cpp:102-121 | every header bit: 16 of length, four zeros, the FEC flag, 00 for rate 1/2 and 01 for 3/4, 12 of sequence number, highest first |
| AirFormat.PayloadOnAir | src/encoder.cpp:91-191 | the payload section is the payload or its code word, every byte highest bit first |
| AirFormat.CrcOnAir | src/frame_builder.cpp:64-93 | the CRC field, highest bit first, over the header filled up with five zeros and the payload before coding |
| AirFormat.AnyPhaseEndToEnd | src/decoder.cpp:73-211 | through a channel that turns by any angle and scales by any gain the receiver can measure, with FEC off and at both rates, every payload of at most 65535 bytes comes back |
| AirFormat.UnknownRateIsRefused | src/decoder.cpp:129-134 | a header with FEC on and an unknown code rate yields no frame |
| LinkTheorems.CleanEndToEnd | src/decoder.cpp:109-210 | for FEC off and at both rates, every payload of at most 65535 bytes comes back, and no error is counted |
| LinkTheorems.OneErrorEndToEnd | src/decoder.cpp:109-210 | at rate 1/2 it still does after one wrong hard decision anywhere in the coded section, counted as one |
| LinkTheorems.FourErrorsNeverMislead | src/decoder.cpp:173-191 | after up to four wrong hard decisions in the coded section the receiver returns the payload or nothing, never a wrong payload |
| Ranges.AddRangeRefinesSet | src/ltp_cla/reception_tracker.cpp:11-38 | adding a range adds exactly its bytes and keeps the list sorted, disjoint, non-adjacent and non-empty |
| Ranges.CanonicalIsUnique | src/ltp_cla/reception_tracker.cpp:11-38 | two such lists that cover the same bytes are the same list |
| Ranges.InsertionOrderIsIrrelevant | src/ltp_cla/reception_tracker.cpp:11-38 | insertions covering the same bytes, in any order and with any repetition, leave the identical list |
| Ranges.TotalIsByteCount | src/ltp_cla/reception_tracker.cpp:95-101 | the sum of the lengths is the size of the set of tracked bytes |
| Ranges.CompleteMeansCovered | src/ltp_cla/reception_tracker.cpp:44-52 | the completeness test holds if and only if the length is zero or everything below it is covered and the list is one range |
| Ranges.CompleteIffCovered | src/ltp_cla/reception_tracker.cpp:44-52 | when all ranges lie within the block, the test holds if and only if the block is covered |
| Ranges.CompleteMissesLaterRange | src/ltp_cla/reception_tracker.cpp:44-52 | a covered block that the test does not see, because of a range behind it |
| Ranges.GapsCoverTheRest | src/ltp_cla/ltp_engine.cpp:407-431 | for any claim list at all, gaps stay in the scope, and gaps and claims together leave out no byte of it |
| Ranges.GapsAreExact | src/ltp_cla/ltp_engine.cpp:407-431 | for sorted disjoint claims the gaps are exactly the uncovered bytes of the scope, sorted, disjoint, non-adjacent and non-empty |
| ReceptionTrackers.WalkGaps | src/ltp_cla/ltp_engine.cpp:407-431 | the cursor loop computes the gaps of its claims in its scope |
| ReceptionTrackers.ReceptionTracker.AddRange | src/ltp_cla/reception_tracker.cpp:11-38 | erase-and-insert in place keeps the tracker valid and yields the merged list |
| ReceptionTrackers.ReceptionTracker.IsComplete | src/ltp_cla/reception_tracker.cpp:44-52 | the test as coded; for a tracker that holds nothing beyond the length it is true if and only if everything below the length was received |
| ReceptionTrackers.ReceptionTracker.GetGaps | src/ltp_cla/reception_tracker.cpp:58-89 | the same gaps as the engine's own loop over the tracker's ranges |
| ReceptionTrackers.ReceptionTracker.TotalReceived | src/ltp_cla/reception_tracker.cpp:95-101 | the number of distinct bytes received |
| Sdnv.EncodeMethod | src/ltp_cla/sdnv.cpp:12-40 | scratch buffer and reversal give the base-128 encoding in at most ten bytes |
| Sdnv.DecodeAt | src/ltp_cla/sdnv.cpp:55-87 | decodes at any offset and moves it just past the value, failing on truncated and over-long input and beyond the end |
| Sdnv.RoundTrip | src/ltp_cla/sdnv.cpp:12-87 | whatever follows, decoding an encoded 64-bit value gives it back and consumes exactly its bytes |
| Sdnv.EncodedLength | src/ltp_cla/sdnv.cpp:12-40 | an encoding has at most k bytes if and only if the value fits in 7k bits |
| Sdnv.EncodedDigit | src/ltp_cla/sdnv.cpp:12-40 | every byte holds seven bits of the value, the highest first, and the high bit exactly when another byte follows |
| Sdnv.EncodingIsMinimal | src/ltp_cla/sdnv.cpp:12-87 | no byte string that decodes to a value is shorter than its encoding |
| Sdnv.DecodeIs | src/ltp_cla/sdnv.cpp:55-87 | any bytes decode to the seven-bit digits up to the first byte without the high bit, modulo 2^64, if it is among the first ten |
| Sdnv.DecodeFailsIff | src/ltp_cla/sdnv.cpp:55-87 | decoding fails if and only if none of the first ten bytes ends the value |
| LtpSegmentCodec.EncodeSegmentMethod | src/ltp_cla/ltp_segment.cpp:57-117 | appends control byte, ids, counts, extensions and content in wire order, which `LtpWire.WireImage` spells out |
| LtpWire.WireImage | src/ltp_cla/ltp_segment.cpp:57-117 | the image of every well-formed segment by its content: control octet, engine id, session number, two extension counts, header extensions, the fields of the content, trailer extensions |
| LtpWire.OctetTellsContent | include/ltp_cla/ltp_segment.h:14-26 | the control octet is at most 5 for data, 6 for a report, 7 for its acknowledgment, and 8, 9, 12 or 13 for a cancel or its acknowledgment |
| LtpSegment.ClaimsOnWire | src/ltp_cla/ltp_segment.cpp:57-117 | claims follow one another, each as offset and length |
| LtpSegment.ExtensionsOnWire | src/ltp_cla/ltp_segment.cpp:57-117 | extensions follow one another, each as tag, length and value |
| LtpSegmentCodec.DecodeSegmentMethod | src/ltp_cla/ltp_segment.cpp:123-247 | the segment the bytes describe, or nothing on any malformed or truncated part |
| LtpSegment.SegmentRoundTrip | src/ltp_cla/ltp_segment.cpp:57-247 | for every well-formed segment of every type and any trailing bytes, decoding the encoding gives the segment and those bytes |
| LtpSegment.EncodingsArePrefixFree | src/ltp_cla/ltp_segment.cpp:57-247 | if the encoding of one well-formed segment starts another's, the segments are the same |
| LtpEngines.LtpEngine.StartSession | src/ltp_cla/ltp_engine.cpp:20-61 | refuses when full; otherwise sends the whole block, keeps a red session and closes a green one |
| LtpEngines.SegmentData | src/ltp_cla/ltp_engine.cpp:67-134 | consecutive pieces of at most the segment size, the last one closing the block; an empty block is one empty closing segment |
| LtpEngines.LtpEngine.ReceiveSegment | src/ltp_cla/ltp_engine.cpp:158-172 | dispatch by type to the handlers |
| LtpEngines.LtpEngine.ReceiveDataSegment | src/ltp_cla/ltp_engine.cpp:178-266 | finds or creates the session, stores, tracks, reports at checkpoints, delivers green data at its end |
| LtpEngines.LtpEngine.ReceiveReportSegment | src/ltp_cla/ltp_engine.cpp:304-401 | acknowledges; completes, retransmits the gaps, or cancels at the limit |
| LtpEngines.LtpEngine.RetransmitGaps | src/ltp_cla/ltp_engine.cpp:437-484 | every gap in pieces, only the very last piece a checkpoint with the next serial |
| LtpEngines.LtpEngine.ReceiveReportAck | src/ltp_cla/ltp_engine.cpp:505-557 | delivers and closes a receiver session that is complete, nothing otherwise |
| LtpEngines.LtpEngine.HandleTimerExpiry | src/ltp_cla/ltp_engine.cpp:563-620 | resends the block and counts, or cancels past the limit; resends a report whose block length is known |
| LtpEngines.LtpEngine.CancelSession | src/ltp_cla/ltp_engine.cpp:626-659 | sends the cancel of the session's role, reports failure and removes the session |
| LtpEngines.LtpEngine.ReceiveCancelSegment | src/ltp_cla/ltp_engine.cpp:665-701 | acknowledges always, removes and reports a known session |
| LtpEngines.LtpEngine.ReceiveCancelAck | src/ltp_cla/ltp_engine.cpp:707-719 | removes a session only if it is marked cancelled |
| LtpEngines.LtpEngine.SendSegment | src/ltp_cla/ltp_engine.cpp:725-775 | one counter per kind of segment, then the send callback |
| LtpWire.StartOctets | src/ltp_cla/ltp_engine.cpp:20-134 | a start is refused with number zero if and only if the engine is full; otherwise the next number is returned and on everything sent, red data is type 0 and closes with type 3 and serial 1, green is 4 and closes with 5 |
| LtpWire.CheckpointAnswered | src/ltp_cla/ltp_engine.cpp:233-298 | a data segment is answered if and only if it is accepted and a checkpoint with a serial number: by one type 6 report that names that number, has the session's next number and claims all it has tracked |
| LtpWire.ReportAnswered | src/ltp_cla/ltp_engine.cpp:304-401 | a report is always acknowledged first, by a type 7 segment with its number; behind it comes nothing, one type 8 cancel with reason 1, or a retransmission of type 0 closed by type 1 with the next serial |
| LtpWire.CancelOctets | src/ltp_cla/ltp_engine.cpp:626-659 | a local cancel is type 8 if the key carries the engine's own id and type 12 otherwise, the failure is reported with its reason and the session is gone; an unknown session changes nothing |
| LtpWire.CancelAnswered | src/ltp_cla/ltp_engine.cpp:665-701 | type 9 answers type 8 and 13 answers 12, for an unknown session too; a known one is gone and its failure reported |
| LtpNumbers.NumbersAreConsecutive | src/ltp_cla/ltp_engine.cpp:272-285 | while a session is stored, its checkpoints or its reports are numbered one after the other, without gaps or repetitions |
| LtpTally.StepTallies | src/ltp_cla/ltp_engine.cpp:725-775 | in every step the counters of sent segments grow by what was sent, kind by kind, completions by what the application was told and by green starts, cancellations by failures told |
| LtpTally.CountersTellTheTruth | src/ltp_cla/ltp_engine.cpp:725-775 | in every run the counters of sent segments are the numbers of segments sent, kind by kind |
| LtpIntake.StepTakesIn | src/ltp_cla/ltp_engine.cpp:178-220 | in every step the counters of received segments grow by the kind of what was taken in, those of sessions by what was opened, the retransmissions by data sent again and reports resent, and nothing moves at the other engine |
| LtpEngineInvariant.StartKeepsOk | src/ltp_cla/ltp_engine.cpp:20-61 | starting keeps the engine invariant: balanced counters, active and consistent sessions, limits respected |
| LtpEngineInvariant.ReceiveKeepsOk | src/ltp_cla/ltp_engine.cpp:158-172 | so does every received segment |
| LtpEngineInvariant.TimerKeepsOk | src/ltp_cla/ltp_engine.cpp:563-620 | so does every expiry |
| LtpEngineInvariant.CancelKeepsOk | src/ltp_cla/ltp_engine.cpp:626-659 | so does a local cancel |
| LtpEngineInvariant.LimitReached | src/ltp_cla/ltp_engine.cpp:574-582 | with a limit of at most 254, an unanswered originator survives exactly the expiries its limit still allows and is cancelled by the next |
| LtpEngineInvariant.LimitNeverReached | src/ltp_cla/ltp_engine.cpp:574-582 | with a limit of 255 it survives any number of them |
| LtpEngineInvariant.LimitWorksIff | src/ltp_cla/ltp_engine.cpp:574-582 | some number of expiries cancels the session if and only if the limit is at most 254 |
| LtpSystem.InFlightIsReceivable | src/ltp_cla/ltp_engine.cpp:158-172 | nothing in flight in any run is outside what the handlers are defined for |
| LtpSystemSafety.AbsorbFits | src/ltp_cla/ltp_engine.cpp:223-239 | taking in a piece of the block keeps the receiver's buffer equal to the block on tracked bytes and zero elsewhere, and fixes the length exactly at EOB |
| LtpSystemSafety.RedDeliveryFits | src/ltp_cla/ltp_engine.cpp:522-556 | what a red delivery hands over is the block if EOB was seen and empty otherwise |
| LtpSystemSafety.CompletionFits | src/ltp_cla/ltp_engine.cpp:342-367 | at the step that signals completion, every byte of the block had arrived |
| LtpRuns.StepKeepsInv | src/ltp_cla/ltp_engine.cpp:158-172 | every start, delivery, expiry or cancel keeps the system invariant, with loss, duplication and reordering |
| LtpRuns.ReceiverBuffersAreSafe | src/ltp_cla/ltp_engine.cpp:223-239 | in every run each receiver session tracks exactly the bytes it has taken in since it was created, its buffer equals the originator's block on them and is zero elsewhere, and it tracks nothing outside the block |
| LtpRuns.DeliveriesAreSafe | src/ltp_cla/ltp_engine.cpp:246-265 | in every run each red delivery after EOB is exactly the block, before EOB empty; each green delivery has the block's length, its bytes wherever the session took them in, and zeros elsewhere |
| LtpRuns.CompletionIsSound | src/ltp_cla/ltp_engine.cpp:342-367 | in every run, when the originator is told that a session is complete, every byte of its block has been received |
| LtpRuns.SessionsAreConserved | src/ltp_cla/ltp_engine.cpp:20-61 | in every run opened sessions are completed, cancelled or stored; stored ones are active, few enough, and their 8-bit counter is within the limit (the rounds it stands for are the subject of `LtpRounds`) |
| LtpRounds.StepKeepsRounds | src/ltp_cla/ltp_engine.cpp:381-400 | with limits of at most 254 every action keeps it so that the rounds of a block are within the limit and, while its session is stored, equal to the session's counter |
| LtpRounds.RoundsWithinLimit | src/ltp_cla/ltp_engine.cpp:381-400 | in every run, with a limit of at most 254, no block is retransmitted in more rounds, by report or by timer, than the limit allows, and the counter of a stored session is the number of rounds |
| LtpRounds.RoundsUnboundedAt255 | src/ltp_cla/ltp_engine.cpp:574-596 | with a limit of 255, n expiries after a start are n rounds, for every n |
| LtpRounds.LimitBoundsRoundsIff | src/ltp_cla/ltp_engine.cpp:574-596 | the limit bounds the rounds of every block in every run if and only if it is at most 254 |
| LtpDeliveries.StepAccounts | src/ltp_cla/ltp_engine.cpp:184-206 | in one step, a receiver session that is opened is delivered, cancelled or still stored, and nothing is delivered otherwise |
| LtpDeliveries.DeliveredOncePerSession | src/ltp_cla/ltp_engine.cpp:184-206 | in every run and for every block, deliveries, cancelled receiver sessions and the stored one add up to the receiver sessions opened |
| LtpDeliveries.NoDataNoRedelivery | src/ltp_cla/ltp_engine.cpp:505-557 | from any reachable state, actions that bring no data segment of a block deliver it at most once more, and never if no session for it is stored |
| LtpDeliveries.RedeliveryNeedsData | src/ltp_cla/ltp_engine.cpp:505-557 | between two deliveries of a block a data segment of it has been received |
| LtpDeliveries.AckDeliversIff | src/ltp_cla/ltp_engine.cpp:505-557 | an acknowledgment, replayed or not, delivers if and only if its session is stored and either does not know its length yet, which delivers nothing but an empty block, or has taken in the whole block, which delivers exactly that |
| LtpDeliveries.GreenDeliversIff | src/ltp_cla/ltp_engine.cpp:223-265 | a data segment that is taken in delivers if and only if it is the end of a green block: the block's length, every byte taken in, zeros elsewhere |
| LtpReplay.DeliveredTwice | src/ltp_cla/ltp_engine.cpp:184-206 | for every block, a whole exchange followed by the same segments and acknowledgment once more delivers the block twice |
| LtpRuns.InFlightSurvivesTheWire | src/ltp_cla/ltp_segment.cpp:57-247 | whatever is in flight in any run is well-formed and decodes to itself |
| LtpRepair.FirstPass | src/ltp_cla/ltp_engine.cpp:67-134 | the first pass is red pieces of the block, only the last a checkpoint, with EOB, covering exactly the block |
| LtpRepair.SecondPass | src/ltp_cla/ltp_engine.cpp:437-484 | the retransmission is red pieces of the block, only the last a checkpoint, covering exactly the gaps |
| LtpRepair.OnePass | src/ltp_cla/ltp_engine.cpp:223-298 | a pass that ends in a checkpoint makes the receiver send exactly one report, claiming all it has and naming that checkpoint |
| LtpRepair.ReportCompletes | src/ltp_cla/ltp_engine.cpp:342-367 | a report that claims the block makes the originator acknowledge that report by its number, complete and forget the session, without retransmitting |
| LtpRepair.ReportRepairs | src/ltp_cla/ltp_engine.cpp:369-400 | a report with gaps makes it acknowledge that report by its number and retransmit exactly the gaps |
| LtpRepair.AckTooEarly | src/ltp_cla/ltp_engine.cpp:505-557 | an acknowledgment before the block is whole changes nothing |
| LtpRepair.AckCloses | src/ltp_cla/ltp_engine.cpp:505-557 | an acknowledgment once it is whole delivers exactly the block and closes the session |
| LtpRepair.OneRepairSuffices | src/ltp_cla/ltp_engine.cpp:304-484 | whatever non-checkpoint part of the first pass is lost, reordered or repeated, if the checkpoint and all that follows arrive in order then both ends finish, the receiver with exactly the block, with one retransmission if a byte was missing and none otherwise |
| LtpRepair.NoLossNoRepair | src/ltp_cla/ltp_engine.cpp:304-367 | when the whole first pass arrives there is no retransmission, whatever the limit |
| LtpRepeatedLoss.AtOriginator | src/ltp_cla/ltp_engine.cpp:342-400 | whatever a lossy pass left missing, the report of it makes the originator complete the session, or send one more round of sorted pieces that fill exactly what is missing |
| LtpRepeatedLoss.LossyPass | src/ltp_cla/ltp_engine.cpp:223-244 | any selection, order and repetition of a pass, closed by its checkpoint, adds exactly what arrived to what the receiver has and makes it send one report of all that, with nothing missing behind the report's end |
| LtpRepeatedLoss.RepairSurvivesLoss | src/ltp_cla/ltp_engine.cpp:304-484 | through as many lossy passes as the limit allows, each losing, reordering and repeating whatever it likes but its checkpoint, the first clean pass lets both ends finish, the receiver with exactly the block, with no more retransmissions than there were lossy passes |
| LtpReplay.RepairFromAnyRun | src/ltp_cla/ltp_engine.cpp:20-61 | the same from every state any run can reach in which both ends have room for a session |
| LtpRecovery.ReportIsResent | src/ltp_cla/ltp_engine.cpp:598-619 | in every reachable state a report timer sends one report on all the session has tracked, up to the end of the block, if and only if the receiver has seen the end of a block that is not empty, and nothing otherwise |
| LtpRecovery.BlockIsResent | src/ltp_cla/ltp_engine.cpp:564-596 | in every reachable state a checkpoint timer sends pieces that cover exactly the block and close with EOB and the next serial, if the counter is below the limit or the limit is 255; at the limit one cancel, without an originator nothing |
| LtpRecovery.ReportExpiryRecovers | src/ltp_cla/ltp_engine.cpp:598-619 | from every reachable state in which the receiver owes a report and the originator still waits, one report expiry, as many lossy passes as the limit allows and a clean one let both ends finish, the receiver with exactly the block; whatever the limit if it has the block already |
| LtpRecovery.LostAckRecoversIff | src/ltp_cla/ltp_engine.cpp:304-321 | when the originator has already forgotten the block, one report expiry and the acknowledgment of its report deliver it if and only if the receiver has all of it |
| LtpRecovery.CheckpointExpiryRecovers | src/ltp_cla/ltp_engine.cpp:564-596 | from every reachable state with an originator below its limit, and at the other end any part of the block or room for it, one checkpoint expiry, as many lossy passes as the limit allows and a clean one let both ends finish, the receiver with exactly the block |
| LtpReplay.HandAll | src/ltp_cla/ltp_engine.cpp:158-172 | segments handed to an engine one after the other are a run of the system, with the same engine, segments and deliveries |
| StreamFraming.FrameMessage | src/ltp_cla/convergence_layer_adapter.cpp:19-30 | the 32-bit big-endian length, then the message |
| StreamFraming.FramedBytes | src/ltp_cla/convergence_layer_adapter.cpp:19-30 | the first four bytes, weighed from the most significant down, are the length, and the message follows |
| StreamFraming.OverrunIff | src/ltp_cla/convergence_layer_adapter.cpp:36-43 | the size check passes too early exactly for unfinished messages with a length field of 2^32 - 4 or more |
| StreamFraming.FramingWorksIff | src/ltp_cla/convergence_layer_adapter.cpp:19-46 | a framed message is recognised when and only when it is whole, if and only if it is shorter than 2^32 - 4 bytes |
| StreamFraming.Receiver.ExtractFramedMessage | src/ltp_cla/convergence_layer_adapter.cpp:32-46 | takes one complete message off the front of the buffer, or leaves it untouched |
| StreamFraming.Receiver.OnRead | src/ltp_cla/convergence_layer_adapter.cpp:259-268 | after appending, hands on every complete message and keeps the rest |
| StreamFraming.Receiver.Run | src/ltp_cla/convergence_layer_adapter.cpp:217-270 | reads, timeouts and lost connections, a lost connection dropping the unfinished rest |
| StreamFraming.DrainInTwo | src/ltp_cla/convergence_layer_adapter.cpp:259-268 | draining early and again later is draining once |
| StreamFraming.ChunkingIsIrrelevant | src/ltp_cla/convergence_layer_adapter.cpp:259-268 | since the last reconnect the loop has done what one drain of all bytes read would do |
| StreamFraming.Reassembly | src/ltp_cla/convergence_layer_adapter.cpp:217-270 | on any prefix of a stream of framed messages, exactly the whole messages are delivered, in order, and an unfinished frame or nothing is left |
| StreamFraming.StreamDelivered | src/ltp_cla/convergence_layer_adapter.cpp:217-270 | such a stream never meets an undefined extraction, and read to its end it is delivered whole |
| SpscQueues.StepKeepsInv | include/qpsk_b200/spsc_queue.h:41-100 | every atomic step of either thread keeps the queue invariant: slots, counters, both threads' knowledge and the history |
| SpscQueues.FullTest | include/qpsk_b200/spsc_queue.h:42-48 | the full test holds if and only if capacity - 1 items are held |
| SpscQueues.EmptyTest | include/qpsk_b200/spsc_queue.h:66-72 | the empty test holds if and only if nothing is held |
| SpscQueues.Linearizable | include/qpsk_b200/spsc_queue.h:41-100 | under every interleaving popped items are a prefix of pushed ones, at most capacity - 1 are held, and the operations in the order they were decided are a sequential FIFO history, refusals included |
| SpscQueues.NoSlotConflict | include/qpsk_b200/spsc_queue.h:50-74 | under every interleaving a slot about to be written is vacant and not the one about to be read, which holds the oldest item |
| SpscQueues.PopAfterWaitSucceeds | include/qpsk_b200/spsc_queue.h:84-100 | a `pop_wait` whose predicate held is never refused |
| SpscQueues.SizeIsRightIff | include/qpsk_b200/spsc_queue.h:104-111 | the reported size counts right if and only if the second load has not overtaken the first; the producer and the consumer always get an exact count |
| SpscQueues.SpscQueue.TryPush | include/qpsk_b200/spsc_queue.h:41-61 | in place: succeeds if and only if there is room and appends the item, by the same steps as the machine |
| SpscQueues.SpscQueue.TryPop | include/qpsk_b200/spsc_queue.h:66-77 | in place: takes the oldest item, or finds the queue empty |

## Left out

- Signal processing: carrier and timing recovery, pulse shaping, and frame synchronisation are floating-point filters; the frame start is given. The phase estimate is modelled on real numbers, with the magnitude of the correlation as a parameter.
- Symbols are points with real coordinates, so rounding of the constellation constants is not modelled.
- Sockets, poll loops, reconnects, the radio hardware, threads, logging and statistics output.
- Configuration files and command lines, and the exceptions constructors throw on unknown code rates or missing preambles: valid configurations are assumed.
- The timer manager's clock, thread and heap and the engine's timer maps: any timer may expire at any moment, which covers every schedule; starting and stopping timers is not modelled.
- Out-of-memory behaviour, hostile segments, and wrap-around of 64-bit counters, offsets and diagnostics, which are unbounded here.
- Weak memory: the ring buffer's atomic accesses are sequentially consistent steps; mutex and condition variable appear only as the predicate loop of `pop_wait`, whose timeout may strike at any false predicate.
- SpscQueues.Linearizable: a `pop_wait` that times out is not itself an entry of the history; the empty checks of its attempts are.
- FecDecoders.FecDecoder.Decode: nothing is stated for lengths whose metrics could reach the infinite one, which no frame header can announce.
- Error correction at rate 3/4, and of five or more wrong bits at rate 1/2: the decoder does not promise it, and `FecCorrection.CorrectedPrefix` says nothing there.
- LtpEngines.LtpEngine.ReceiveDataSegment: sessions are values in the engine's map, so updates through references into the map are modelled as replacing the entry.
- LtpRepair.OneRepairSuffices: no timer expires during the exchange; what an expiry does is in `LtpRecovery`, safety under expiries in `LtpRuns`.
- LtpRepeatedLoss.RepairSurvivesLoss: nor here, and nothing else passes between the two engines meanwhile.
- LtpSegmentCodec.DecodeSegmentMethod: offset plus length of a data segment is an unbounded sum, so its 64-bit wrap-around on hostile input is not modelled.
- Link.Encoder.Encode: pulse shaping and the return of samples instead of symbols.
