# Aerial FAPI bridge: a verified model

The bridge stands between an OCUDU stack and the NVIDIA Aerial L1. Downwards it turns slot messages into packed
little-endian SCF FAPI buffers (SCF 222, "5G FAPI: PHY API", in the layout without the 10.04 extensions); upwards it
parses the indications of L1 and hands them to notifiers. This project models that bridge and proves what its parts
promise of each other.

How the files hang together:

- `Wire.dfy`, `Bits.dfy`: little-endian integers, packed structs, in-place writes, and bit streams in both bit orders.
- `UciIndication.dfy` with `UciTheorems.dfy`, `CrcMessages.dfy`, `RxDataMessages.dfy`, `RachMessages.dfy`,
  `SrsMessages.dfy`: the indication parsers. Each has functions that say what arbitrary bytes mean, a cursor-driven
  dispatcher over an array proved against them, and theorems about the functions.
- `Envelope.dfy`, `PduFrame.dfy`, `UlPdus.dfy`, `PucchPdus.dfy`, `DlPdus.dfy`, `Requests.dfy`, `DlRequests.dfy`,
  `UlRequests.dfy`: the request writers, which fill an array in place and back-patch lengths and counts, and readers
  driven by nothing but the bytes.
- `TxData.dfy`: transport blocks scattered into the data buffer on 32-byte boundaries.
- `SlotStream.dfy`: SLOT.indication parsing and the extender that unrolls circular slots (3GPP TS 38.211, sections
  4.3.1 and 4.3.2). `SlotRuns.dfy` follows a run from the dispatched messages to the extended slots.
- `Tlv.dfy`, `ConfigRequest.dfy`: TLV emission and the CONFIG.request body.
- `Reports.dfy`, `RxReports.dfy`: what notifiers are told, and the runtime counters.
- `BufferProtocol.dfy`, `ProtocolTheorems.dfy`: the buffers around nvIPC as an interleaved step system of TX callers,
  one receive loop and L1. `Transports.dfy` puts a queue of messages on it, which `Deliver` fills and the receive
  loop empties; `RxThread.dfy` and `Gateways.dfy` are the classes that run on that. Every state of their transport is a
  state the step system reaches.
- `Sorting.dfy`, `TvNames.dfy`, `RangeCompression.dfy`, `NameCompression.dfy`, `CompressionTheorems.dfy`,
  `PrintedLines.dfy`: the range compression of test-vector names.

Reading the contracts: senders and readers in the theorems are written out on their own, with literal values, and share
with the code they are compared with only words and bit streams, which have theorems of their own. `Overwrite(s, pos, x)` is `s` with `x` written over it from `pos`, so a writer's contract fixes
every byte of the buffer. Notifiers are logs of the calls they received. A `requires` that asks for room is the room the
code itself does not check.

Where the code and its own words differ, the code is followed:

- The CONFIG.request comments speak of 9 carrier TLVs plus 2 grid sizes; the code emits the grid sizes among the carrier
  records, eleven in a row. The total of thirty is right. They also speak of 20 MHz, where 273 resource blocks at 30 kHz
  are 100 MHz.
- A transport block that does not fit is still listed, at the offset the next one will also get: `TxData.CopiedExactly`.
- `num_pdus` of DL_TTI, UL_TTI and UL_DCI is eight bits wide, so a list of 256 PDUs or more no longer walks to its end:
  `Requests.Walkable` is an equivalence. `UlRequests.CountWraps` shows such a list, of 3089 of the 15000 bytes allocated.
- The reported TX_DATA byte count may exceed a buffer whose length is not a multiple of 32: `TxData.WrittenFits` is an
  equivalence (`TxData.FillingOverflows` gives the list of blocks); the 576000 bytes in use are safe. In a buffer beyond
  0xFFFF_FFE0 bytes two copied blocks may even overlap: `TxData.ApartExactly`.
- The extender is faithful to the received slots only while no step is clamped, and to real time only while every gap is
  below half the period: `SlotStream.FaithfulExactly` and `SlotStream.TimelineTracked` are equivalences, and
  `SlotStream.HalfPeriodLost` is a stream with a gap of half a period.
- `compress_tv_names` loses a name whose number is written in non-ASCII digits (they are printed in ASCII) or that ends
  in a newline (which `$` ignores): `CompressionTheorems.Lossless` is an equivalence, and `CompressionTheorems.LostNames`
  gives one name of either kind. The newline concerns the function alone: its one caller
  (scripts/check_waveform_assets.py:142) passes names that end in `.h5`.
- A name listed twice is printed as two ranges where one would do: `CompressionTheorems.FewestRanges` and
  `RangeCompression.TwiceListed`. A name that itself looks like a range reads back as that range: `PrintedLines.Ambiguous`.

## Model

| member | source | states |
|---|---|---|
| Bits.PackedBits | aerial_bridge/src/msg_translator.cpp:489-496 | After the `|=` packing, every bit position of the zone reads as the stream bit there, and as zero past the end of the stream, in either bit order and for every length |
| Bits.PackedPlaces | aerial_bridge/src/msg_translator.cpp:561-569 | Place by place: low bit first, stream bit i is bit i mod 8 of its byte; high bit first it is bit 7 - i mod 8 |
| Bits.BitIsShifted | aerial_bridge/src/msg_translator.cpp:209-215 | Bit k of a number is what a shift by k and a mask leave |
| Wire.WordsLittleEndian | aerial_bridge/src/msg_translator.cpp:418-430 | A word written or read is the number whose base-256 digits are its bytes, least first |
| Bits.PackRoundTrip | aerial_bridge/src/msg_translator.cpp:201-216 | Unpacking inverts packing, for both bit orders and every bit length |
| Bits.PackInto | aerial_bridge/src/msg_translator.cpp:561-569 | The clear-then-or loop writes exactly the packed stream over its zone and touches nothing else |
| Bits.UnpackFrom | aerial_bridge/src/msg_translator.cpp:209-215 | The read loop returns the bit stream of the bytes, least significant bit first |
| UciIndication.TakeSection | aerial_bridge/src/msg_translator.cpp:1702-1712 | One variable-length section: taken only when named, inside the extent and within its capacity; the cursor moves past whatever the section declares |
| UciIndication.TakePucch01 | aerial_bridge/src/msg_translator.cpp:1762-1813 | A PUCCH format 0/1 PDU is exactly the report its own extent spells, every read inside that extent |
| UciIndication.TakePdu | aerial_bridge/src/msg_translator.cpp:1684-1934 | The PDU read in place is the report of its declared extent and of nothing else; unknown types and short extents give none |
| UciIndication.NextExtent | aerial_bridge/src/msg_translator.cpp:1669-1679 | A PDU is entered exactly when its header and declared size fit the buffer |
| UciIndication.Dispatch | aerial_bridge/src/msg_translator.cpp:1654-1938 | The upper layer receives exactly the notifications of the message, in order, after those it had, and the counters count them; nothing else changes |
| UciTheorems.SectionsBack | aerial_bridge/src/msg_translator.cpp:76-91 | Any subset of the sections, of any in-limit bit lengths, written after one another, read back one by one with their bits |
| UciTheorems.PduBack | aerial_bridge/src/msg_translator.cpp:38-91 | Each PDU a sender builds from what it sends (bitmap 1 SR, 2 HARQ, 4 CSI part 1, 8 CSI part 2, sections in that order) is reported as what it means; a PDU of another kind as nothing |
| UciTheorems.RoundTrip | aerial_bridge/src/msg_translator.cpp:1654-1938 | Any list of well-formed UCI PDUs, encoded by an independent sender and followed by anything, gives one notification per PDU of a known kind, in order, with exactly the sections sent, their bits, detection status and format |
| UciTheorems.Truncation | aerial_bridge/src/msg_translator.cpp:1668-1679 | Cutting a UCI message anywhere leaves a prefix of its notifications: a PDU is reported whole or not at all |
| UciTheorems.WalkLocality | aerial_bridge/src/msg_translator.cpp:1932-1936 | Two walks whose bytes differ only inside the payload of PDU k agree on every other PDU, unknown types and early exits included |
| UciTheorems.MessageLocality | aerial_bridge/src/msg_translator.cpp:1668-1679 | The same for whole messages: they walk the same PDUs and every report but the k-th is the same |
| UciTheorems.ReportedExactly | aerial_bridge/src/msg_translator.cpp:1702-1744 | On arbitrary bytes, section k is reported if and only if it is named, all of it lies inside the extent, and it is not too long for its receiver |
| UciTheorems.PuschReported | aerial_bridge/src/msg_translator.cpp:1685-1744 | On arbitrary bytes of a PUSCH PDU: HARQ, CSI part 1 and CSI part 2 are bits 1, 2 and 3 of the bitmap, each reported exactly when it is named, whole and not too long, behind whatever the one before it declares |
| UciTheorems.Pucch234Reported | aerial_bridge/src/msg_translator.cpp:1827-1912 | The same for PUCCH formats 2, 3 and 4, where SR is bit 0, comes first and has no status byte |
| UciTheorems.Pucch01Reported | aerial_bridge/src/msg_translator.cpp:1785-1813 | On arbitrary bytes of a PUCCH format 0/1 PDU: which of SR and HARQ values is reported, and with what |
| UciTheorems.OverrunSilencesTheRest | aerial_bridge/src/msg_translator.cpp:1855-1912 | Once one section runs past the extent, no later section is reported |
| UciTheorems.OversizeIsSkipped | aerial_bridge/src/msg_translator.cpp:1702-1744 | A section that is too long but fits the extent is dropped, and all the others read exactly as if it had never been sent |
| CrcMessages.Dispatch | aerial_bridge/src/msg_translator.cpp:1450-1517 | CRC notifications and counters are exactly those of the bytes, for any bytes |
| CrcMessages.RoundTrip | aerial_bridge/src/msg_translator.cpp:1440-1446 | Encoded CRC records, with code-block arrays of any length, come back one notification each, in order |
| CrcMessages.Truncation | aerial_bridge/src/msg_translator.cpp:1464-1499 | Cutting a CRC message anywhere leaves a prefix of its notifications, of which only the last may lack its measurements |
| RachMessages.Dispatch | aerial_bridge/src/msg_translator.cpp:1595-1646 | RACH notifications and counters are exactly those of the bytes, for any bytes |
| RachMessages.RoundTrip | aerial_bridge/src/msg_translator.cpp:1589-1593 | Encoded RACH PDUs come back with exactly their preambles, in order |
| RachMessages.Truncation | aerial_bridge/src/msg_translator.cpp:1609-1645 | Cutting a RACH message anywhere leaves a prefix of its notifications, of which only the last may lack trailing preambles |
| SrsMessages.SkipReports | aerial_bridge/src/msg_translator.cpp:1972-1983 | The inner loop stops behind the reported symbols, or at the end of the buffer when one of them does not fit |
| SrsMessages.Dispatch | aerial_bridge/src/msg_translator.cpp:1944-1988 | SRS notifications and counters are exactly those of the bytes, for any bytes |
| SrsMessages.RoundTrip | aerial_bridge/src/msg_translator.cpp:93-106 | Encoded SRS PDUs come back head by head, whatever symbol reports lie between them |
| SrsMessages.Truncation | aerial_bridge/src/msg_translator.cpp:1958-1987 | Cutting an SRS message anywhere leaves a prefix of its notifications |
| RxDataMessages.Dispatch | aerial_bridge/src/msg_translator.cpp:1531-1584 | RX_DATA notifications are exactly those of the bytes, and the byte counter adds every declared length, delivered or not |
| RxDataMessages.RoundTrip | aerial_bridge/src/msg_translator.cpp:1524-1529 | Encoded RX_DATA records come back in order, each with the block that starts where the last delivered one ended, or none when that does not fit the data buffer or there is none |
| RxDataMessages.DeliveredTile | aerial_bridge/src/msg_translator.cpp:1547-1583 | What is delivered tiles the front of the data buffer: each block starts where the one before ended, and none leaves the buffer |
| RxDataMessages.TilesAreApart | aerial_bridge/src/msg_translator.cpp:1572-1577 | Tiling blocks are in order, pairwise disjoint and inside their range |
| RxDataMessages.Delivery | aerial_bridge/src/msg_translator.cpp:1547-1583 | Every block is delivered if and only if the declared lengths fit together; then the blocks joined are the prefix of the data buffer of that length |
| TxData.PaddingOnWords | aerial_bridge/src/msg_translator.cpp:1378-1379 | On 32-bit words, `(~n + 1) & 31` is the one number below 32 that aligns `n` |
| TxData.PaddingAligns | aerial_bridge/src/msg_translator.cpp:1378-1379 | On numbers it is the same, and the stride is the length rounded up unless the 32-bit sum wraps |
| TxData.Serialize | aerial_bridge/src/msg_translator.cpp:1317-1392 | The message is the head and one record per block; the data buffer is the scatter of the blocks; the byte count and the counters follow |
| TxData.Placements | aerial_bridge/src/msg_translator.cpp:1343-1380 | For a data buffer of any length: every running offset is a multiple of 32, and every copied block lies inside the buffer |
| TxData.PlacementsApart | aerial_bridge/src/msg_translator.cpp:1343-1380 | Offsets never go back, and a copied block ends before any later offset unless it is so long that its rounded length wraps |
| TxData.ApartExactly | aerial_bridge/src/msg_translator.cpp:1375-1380 | Whatever the blocks, copied ones end before every later offset, if and only if the buffer has at most 0xFFFF_FFE0 bytes: beyond that the rounded length can wrap, and the next block is put over the one before |
| TxData.BlockInPlace | aerial_bridge/src/msg_translator.cpp:1375-1380 | When all copies are done, each copied block whose rounded length does not wrap stands byte for byte at its offset, in a buffer of any length: later copies disturb none |
| TxData.RestUntouched | aerial_bridge/src/msg_translator.cpp:1375-1380 | A byte no copied block covers keeps its old value |
| TxData.WrittenIsSum | aerial_bridge/src/msg_translator.cpp:1375-1383 | The reported byte count is the sum of the copied sizes, each rounded up to 32 in 32 bits, in a buffer of any length |
| TxData.CopiedExactly | aerial_bridge/src/msg_translator.cpp:1374-1380 | Block i is copied if and only if there is a data buffer and its listed offset plus its length is at most the buffer length; the listed offset is the sum of the copied blocks before it, each rounded up |
| TxData.FrontInPlace | aerial_bridge/src/msg_translator.cpp:1374-1380 | As long as they fit together, all blocks are copied and stand end to end from the front of the buffer, each on the next multiple of 32 |
| TxData.WrittenFits | aerial_bridge/src/msg_translator.cpp:1375-1383 | The reported byte count never exceeds the buffer if and only if the buffer length is a multiple of 32 |
| TxData.MessageLocatesBlocks | aerial_bridge/src/msg_translator.cpp:1346-1372 | A reader of record i finds the full 32-bit length, the length cut to 16 bits, and the offset, cut to 32 bits, at which block i stands if it was copied and its rounded length does not wrap |
| TxData.MessageHeadRead | aerial_bridge/src/msg_translator.cpp:1317-1337 | Headers and head of the message read back: type 0x84, the length behind the headers, SFN, slot and the count modulo 2^16 |
| Gateways.DataNeverOverreported | aerial_bridge/src/aerial_fapi_adaptor.cpp:403-403 | In the 576000-byte data buffer no list of blocks is reported to fill more than there is |
| Envelope.WriteHeaders | aerial_bridge/src/msg_translator.cpp:418-430 | The two headers go in front of a body already in place, which stays |
| PduFrame.HopMeetsAll | aerial_bridge/src/msg_translator.cpp:702-727 | Hopping by `pdu_size` over PDUs laid end to end meets exactly those PDUs and lands behind the last one taken |
| UlPdus.SerializePusch | aerial_bridge/src/msg_translator.cpp:735-919 | The in-place writer, with its optional blocks and back-patched size, leaves exactly the PDU and touches nothing else |
| UlPdus.PuschBack | aerial_bridge/src/msg_translator.cpp:735-919 | A reader driven by the bytes alone (bitmap and precoding byte) recovers every field of a PUSCH PDU; it accepts the DFT block only with the DMRS identity as its sequence number, and every other fixed byte only at its literal value |
| UlPdus.PuschSize | aerial_bridge/src/msg_translator.cpp:735-919 | A PUSCH PDU has 91 bytes, plus 9 with data, 10 with UCI and 5 with transform precoding |
| UlPdus.DftBlockPresence | aerial_bridge/src/msg_translator.cpp:735-919 | The DFT block is in the PDU exactly when bit 3 of its bitmap is set |
| PucchPdus.SerializePucch | aerial_bridge/src/msg_translator.cpp:922-1067 | The in-place PUCCH writer leaves exactly the PDU and touches nothing else |
| PucchPdus.PucchBack | aerial_bridge/src/msg_translator.cpp:922-1067 | A reader driven by the format byte recovers every field of all five PUCCH formats, and accepts the fields a format does not use only as zero |
| PucchPdus.PrachBack | aerial_bridge/src/msg_translator.cpp:1177-1191 | A PRACH PDU reads back, with the fixed cell identity zero |
| PucchPdus.SrsBack | aerial_bridge/src/msg_translator.cpp:1070-1147 | An SRS PDU reads back |
| DlPdus.SerializePdcch | aerial_bridge/src/msg_translator.cpp:470-574 | The in-place PDCCH writer leaves exactly the PDU and touches nothing else |
| DlPdus.PdcchBack | aerial_bridge/src/msg_translator.cpp:470-574 | A reader driven by the bytes recovers the PDCCH PDU: the DCI bit for bit by its bit length, the frequency bitmap up to its 45 bits, both zero past the bits given, one DCI, no beamforming, power offset 1 |
| DlPdus.SerializePdsch | aerial_bridge/src/msg_translator.cpp:577-660 | The in-place PDSCH writer, codeword loop included, leaves exactly the PDU and touches nothing else |
| DlPdus.PdschBack | aerial_bridge/src/msg_translator.cpp:577-660 | A reader driven by the codeword count recovers the PDSCH PDU and its index, and accepts the fixed bytes (allocation type 1, blank bitmap and beamforming, power offsets 8 and 1) only as they are |
| DlPdus.SsbBack | aerial_bridge/src/msg_translator.cpp:444-467 | An SSB PDU reads back, with the power byte of the NR profile or zero |
| DlRequests.SerializeDlTti | aerial_bridge/src/msg_translator.cpp:687-732 | DL_TTI.request: headers with the true length, head with the count modulo 256, then the PDUs; unsupported kinds leave neither bytes nor count |
| DlRequests.DlReceived | aerial_bridge/src/msg_translator.cpp:702-727 | Reading the extents gives the supported PDUs of the request, in order. A PDSCH equals the request field by field; each codeword has its index, redundancy version and size, table 0 when forced and else the one requested, and rate and modulation of that table at that index |
| DlRequests.DlMessageReceived | aerial_bridge/src/msg_translator.cpp:687-732 | Headers, SFN, slot and counts of a DL_TTI.request read back, and walking it by its own count lands at its end, on exactly the supported PDUs |
| DlRequests.PdschNumbered | aerial_bridge/src/msg_translator.cpp:703-714 | Each PDSCH PDU is read with the number of those before it, so later ones have larger indices |
| UlRequests.SerializeUlTti | aerial_bridge/src/msg_translator.cpp:1154-1272 | UL_TTI.request: counts kept in the head while the PDUs are written, then the headers; the PDU counters move with them |
| UlRequests.UlHeadRead | aerial_bridge/src/msg_translator.cpp:1163-1215 | Headers, SFN and slot of a UL_TTI.request read back; `num_pdus`, `rach_present`, `num_ulsch` and `num_ulcch` are those of the list |
| UlRequests.UlCounted | aerial_bridge/src/msg_translator.cpp:1170-1265 | The four uplink counters gain the number of PDUs of their kind, the others nothing |
| UlRequests.UlReceived | aerial_bridge/src/msg_translator.cpp:1170-1272 | Walking a UL_TTI.request by its own count reads back the whole list, PDU by PDU |
| UlRequests.CountWraps | aerial_bridge/src/msg_translator.cpp:1170-1272 | Where the walk goes wrong: 256 PRACH PDUs make a message of 3089 bytes whose count reads zero, so a walk by it stops at offset 17 with 3072 bytes of PDUs left |
| UlRequests.SerializeUlDci | aerial_bridge/src/msg_translator.cpp:1279-1311 | UL_DCI.request: head, PDCCH PDUs, headers with the true length |
| UlRequests.UlDciReceived | aerial_bridge/src/msg_translator.cpp:1298-1310 | Headers, SFN, slot and count of a UL_DCI.request read back, and walking it by its own count reads back every DCI |
| Requests.LengthDeclared | aerial_bridge/src/msg_translator.cpp:1268-1271 | A request starts with one message, its cell and its type, and ends exactly 8 + `length` bytes from its start |
| Requests.Walkable | aerial_bridge/src/msg_translator.cpp:702-727 | Walking by the 8-bit count meets the PDUs in order, and lands at the declared end if and only if there are fewer than 256 |
| SlotStream.Deserialize | aerial_bridge/src/msg_translator.cpp:1398-1431 | The parsing loop returns the point of the message, or nothing, as the byte-level parse does |
| SlotStream.InferIsLeast | aerial_bridge/src/msg_translator.cpp:1417-1424 | For every configured numerology: the inference loop ends at the least numerology from it on whose frame, counted in 32 bits, holds the slot, if one up to 4 (or the configured one) does |
| SlotStream.Acceptance | aerial_bridge/src/msg_translator.cpp:1410-1431 | For every configured numerology: a message is accepted exactly when it is long enough, SFN <= 1023 and the slot fits a frame of numerology 4 (160 slots) or of a higher configured one; the point gets the least fitting numerology and projects back to the received pair |
| SlotStream.NumerologyKept | aerial_bridge/src/msg_translator.cpp:1417-1427 | An accepted message keeps the configured numerology if and only if its slot fits a frame of it |
| SlotStream.PointProjects | aerial_bridge/src/msg_translator.cpp:433-437 | `slot_to_sfn_slot` of a point gives the SFN and slot it was made from |
| SlotStream.SlotExtender.OnSlotIndication | ocudu_patches/slot_point_extender_adaptor.cpp:11-30 | Each call hands on the slot handed on before plus max(1, delta), modulo the number of hyper frames times the period, with the time stamp of the message; the first call hands on the received slot |
| SlotStream.WrappedProjects | ocudu_patches/slot_point_extender_adaptor.cpp:21-30 | Starting over after whole hyper frames leaves SFN and slot of an extended slot as they were |
| SlotStream.StrictlyIncreasing | ocudu_patches/slot_point_extender_adaptor.cpp:21-28 | Over a whole run the extended slots strictly increase |
| SlotStream.RunAdvances | ocudu_patches/slot_point_extender_adaptor.cpp:19-28 | The total advance of a run is the sum of max(1, delta) |
| SlotStream.ExactDrift | ocudu_patches/slot_point_extender_adaptor.cpp:21-23 | Modulo the period, the extended slot differs from the raw one by exactly the sum of 1 - delta over the clamped steps |
| SlotStream.FaithfulExactly | ocudu_patches/slot_point_extender_adaptor.cpp:19-28 | The extended stream projects to what was received at every step if and only if no step was clamped |
| SlotStream.GapMeasured | ocudu_patches/slot_point_extender_adaptor.cpp:19-23 | One step measures the true gap if and only if the gap is below half the period |
| SlotStream.TimelineTracked | ocudu_patches/slot_point_extender_adaptor.cpp:11-30 | For a stream that moves forward, the output is the first slot plus the true elapsed slots at every step if and only if every gap is below half the period |
| SlotStream.HalfPeriodLost | ocudu_patches/slot_point_extender_adaptor.cpp:19-28 | Where tracking goes wrong: at numerology 1, indications at the absolute slots 0 and 10240 come out as 0 and 1 |
| SlotStream.StreamTracksTimeline | ocudu_patches/slot_point_extender_adaptor.cpp:11-30 | From the bytes on: parsing then extending an arbitrarily long stream, across every SFN wrap, tracks real time, and each extended slot projects to the SFN and slot on the wire |
| SlotRuns.ToldInOrder | aerial_bridge/src/rx_thread.cpp:144-158 | Among any other messages, every accepted SLOT.indication reaches the slot notifier, in order, with its time stamp, and nothing else does |
| SlotRuns.RunKeepsNumerology | aerial_bridge/src/msg_translator.cpp:1417-1431 | All slots told in a run keep the configured numerology if and only if each accepted slot fits a frame of it |
| SlotRuns.Extend | ocudu_patches/slot_point_extender_adaptor.cpp:11-30 | An extender given the slots of a run one by one hands on exactly their extension |
| SlotRuns.HandedOn | ocudu_patches/slot_point_extender_adaptor.cpp:19-30 | Every slot handed on is the first one received plus the sum of max(1, delta) since, modulo the number of hyper frames times the period |
| SlotRuns.HandedOnIncreases | ocudu_patches/slot_point_extender_adaptor.cpp:19-30 | Until that counter starts over, the slots handed on strictly increase and are the first slot plus the total advance |
| SlotRuns.RunTracksTimeline | ocudu_patches/slot_point_extender_adaptor.cpp:11-30 | From the dispatched messages on: the slots extended from what the notifier was told are the first slot plus the true elapsed slots at every step if and only if every gap is below half the period |
| SlotRuns.ExtendedProjects | ocudu_patches/slot_point_extender_adaptor.cpp:11-30 | What the extender then hands on carries the time stamp of its message and is the first slot plus the true elapsed slots, modulo all hyper frames; it projects to the SFN and slot on the wire, across every wrap |
| Tlv.AddTlv | aerial_bridge/src/aerial_fapi_adaptor.cpp:65-79 | `add_tlv` writes tag, length, value and zero padding at the cursor, returns the cursor past them, and touches nothing else |
| Tlv.WalkBack | aerial_bridge/src/aerial_fapi_adaptor.cpp:65-79 | Walking what any sequence of calls wrote, by 4 plus the length rounded up to 4, gives the tags and values back in order and stops at the returned cursor |
| Tlv.WalkExact | aerial_bridge/src/aerial_fapi_adaptor.cpp:65-79 | Nothing else walks: bytes that yield a list are the bytes written for that list |
| Tlv.BytesDetermineList | aerial_bridge/src/aerial_fapi_adaptor.cpp:65-79 | Two lists of the same number of records with the same bytes are the same list |
| ConfigRequest.SlotConfig | aerial_bridge/src/aerial_fapi_adaptor.cpp:224-240 | The loop fills 140 symbols with the pattern DDDSU twice, special slots 10 downlink, 2 guard, 2 uplink |
| ConfigRequest.SerializeConfig | aerial_bridge/src/aerial_fapi_adaptor.cpp:81-248 | The body written through the cursor is the count and the records in the order of the source, behind headers that declare 393 bytes |
| ConfigRequest.ConfigReceived | aerial_bridge/src/aerial_fapi_adaptor.cpp:149-248 | Exactly thirty records, 393 bytes of the 512 reserved; walking the message by its own count gives the cell spelled out byte by byte (carrier, SSB, PRACH with the occasion last, DDDSU twice) and ends at its end |
| ProtocolTheorems.StepKeeps | aerial_bridge/src/rx_thread.cpp:117-133 | Every step of every party keeps conservation, the account of allocations, and the order of messages |
| ProtocolTheorems.BuffersConserved | aerial_bridge/src/aerial_fapi_adaptor.cpp:322-436 | In every reachable state each pool buffer is in exactly one place |
| ProtocolTheorems.AllocationsEndOnce | aerial_bridge/src/aerial_fapi_adaptor.cpp:394-436 | Each successful allocation has been sent once, or given back once, or is still held: one of the three |
| ProtocolTheorems.ReceivedInOrder | aerial_bridge/src/rx_thread.cpp:117-141 | Messages are dispatched once, in queue order, and each returned before the next is received, those the length guard rejects included |
| ProtocolTheorems.StoppedStaysQuiet | aerial_bridge/src/rx_thread.cpp:103-133 | Once stopped with no drain under way, the loop touches no message until it is started anew, whatever the others do, and wakes up at most once more, when it was waiting |
| ProtocolTheorems.WakesAnswerPosts | aerial_bridge/src/rx_thread.cpp:117-123 | The loop has woken up as often as L1 has posted, less the posts still pending |
| ProtocolTheorems.NothingLeaks | aerial_bridge/src/rx_thread.cpp:117-133 | When nobody holds a message and the queues are empty, the whole pool is free again |
| RxThread.RxThread.Start | aerial_bridge/src/rx_thread.cpp:75-101 | A start launches the loop with its configuration, or launches it anew once the one before has ended; one that finds it running changes nothing |
| RxThread.RxThread.Stop | aerial_bridge/src/rx_thread.cpp:103-115 | Stop clears `running` once and leaves the loop where it stands |
| RxThread.RxThread.DispatchMessage | aerial_bridge/src/rx_thread.cpp:135-254 | The one notifier a message concerns, if registered, is told exactly what the message says, a negative data length taken as the size it converts to; a message the guard rejects, or of unknown kind, changes nothing |
| RxThread.DispatchTable | aerial_bridge/src/rx_thread.cpp:135-254 | The whole table: for each message identifier, who is told what and which counters move, under which length guard, and that nothing else changes |
| RxThread.RxThread.Round | aerial_bridge/src/rx_thread.cpp:126-130 | One receive, dispatch, release, as the protocol takes them, whatever the others do before it and while the message is in hand; the protocol records it as handled exactly when the message was passed on |
| RxThread.RxThread.Drain | aerial_bridge/src/rx_thread.cpp:125-130 | The inner loop hands on every message, those queued while it drains included, and takes exactly the receive, handle, return steps of the protocol for each, among the steps of the others; it ends on an empty queue |
| RxThread.RxThread.Turn | aerial_bridge/src/rx_thread.cpp:117-133 | One turn of the outer loop: exit if stopped, else drain the queue, arrivals included, and wait again |
| RxThread.ArrivalOrder | aerial_bridge/src/rx_thread.cpp:125-130 | What one drain dispatches is the queue it found followed by what arrived up to its last receive, each once and in order |
| RxReports.CountedReckons | aerial_bridge/src/msg_translator.cpp:1499-1505 | Counting message by message is counting the totals of the run, on 64-bit counters |
| RxReports.MetricsAgree | aerial_bridge/src/msg_translator.cpp:248-268 | After a reset and any sequence of messages: CRC outcomes sum to the CRC total, UCI kinds to the UCI total, and the data bytes are the declared lengths |
| RxReports.CountersMatchCalls | aerial_bridge/src/msg_translator.cpp:367-391 | The calls made to the indications notifier and what the counters gained from zero tell the same story, modulo 2^64 |
| RxReports.CountersSinceReset | aerial_bridge/src/msg_translator.cpp:367-391 | Over any sequence of messages and resets, the counters account for exactly the calls made since the last reset |
| Reports.CrcCounted | aerial_bridge/src/msg_translator.cpp:1499-1505 | Counting CRC reports one by one adds their number, the passes and the failures |
| Reports.UciCounted | aerial_bridge/src/msg_translator.cpp:1745-1747 | Counting UCI reports one by one adds their number and the number of each kind |
| Reports.RxDataCounted | aerial_bridge/src/msg_translator.cpp:1579-1581 | Counting records one by one adds their number and the sum of the declared lengths |
| Gateways.Gateway.SendTxData | aerial_bridge/src/aerial_fapi_adaptor.cpp:394-436 | Allocate, serialize, then send, or give back when the message buffer is shorter than the fixed head; in each outcome the steps, the message, the data buffer, the data length sent and the TX counters are exact |
| Gateways.Gateway.SendDlTti | aerial_bridge/src/aerial_fapi_adaptor.cpp:322-345 | The same for DL_TTI, with the bytes that go out |
| Gateways.Gateway.SendUlTti | aerial_bridge/src/aerial_fapi_adaptor.cpp:347-369 | The same for UL_TTI, with the bytes that go out and the counters |
| Gateways.Gateway.SendUlDci | aerial_bridge/src/aerial_fapi_adaptor.cpp:371-392 | The same for UL_DCI, with the bytes that go out |
| Gateways.Gateway.SendConfig | aerial_bridge/src/aerial_fapi_adaptor.cpp:152-259 | A granted allocation is always sent, cut down to the message |
| Gateways.Gateway.SendEmpty | aerial_bridge/src/aerial_fapi_adaptor.cpp:262-310 | PARAM, START and STOP requests: eight header bytes, always sent when granted |
| TvNames.NameMatches | scripts/check_waveform_assets.py:49-56 | A name spelled from a key and a number splits into that key and number |
| TvNames.MatchExactly | scripts/check_waveform_assets.py:46-46 | A name matches if and only if it is one of the two prefixes, four digits, `_gNB_FAPI_s`, at least one digit, `.h5`, and at most one newline |
| TvNames.SpellingMatches | scripts/check_waveform_assets.py:49-56 | And then its parts are found: prefix, digits and suffix |
| TvNames.LessEqIsBefore | scripts/check_waveform_assets.py:49-49 | The order of the text is dictionary order: at the first place where two names differ |
| TvNames.PlainName | scripts/check_waveform_assets.py:13-14 | A matching ASCII name is spelled again by its key and number |
| TvNames.OrderOfNumbers | scripts/check_waveform_assets.py:51-56 | Among numbers of one width, the order of the text is the order of the values |
| RangeCompression.RunsLossless | scripts/check_waveform_assets.py:60-68 | Expanding the runs of a list gives back the list itself, order and repetitions included |
| RangeCompression.SeparatedExactly | scripts/check_waveform_assets.py:60-68 | The runs of any list are sorted, disjoint and with gaps between neighbours if and only if its values strictly increase |
| RangeCompression.FewestExactly | scripts/check_waveform_assets.py:60-68 | For any list, no cover of its values by runs is shorter than the one emitted, if and only if no value comes twice and each whose successor is listed is directly followed by it |
| RangeCompression.TwiceListed | scripts/check_waveform_assets.py:60-68 | Where it is not the shortest: a number listed twice is emitted as two equal runs |
| NameCompression.CompressGroup | scripts/check_waveform_assets.py:61-68 | The loop over `start` and `prev` emits exactly the greedy runs of the group |
| NameCompression.Group | scripts/check_waveform_assets.py:47-56 | The dictionary holds, per key, the numbers in order of the names; keys keep their insertion order; the rest is passed through |
| NameCompression.CompressTvNames | scripts/check_waveform_assets.py:46-71 | The printed lines are the rendered ranges, group by group in key order, then the sorted rest, line by line |
| CompressionTheorems.Lossless | scripts/check_waveform_assets.py:46-71 | Ranges expanded plus names passed through are exactly the input, with repetitions, if and only if no matching name uses non-ASCII digits or ends in a newline |
| CompressionTheorems.LostNames | scripts/check_waveform_assets.py:46-56 | Where names get lost: one written with an Arabic-Indic digit, and one with a newline behind it, come back as the plain ASCII name |
| CompressionTheorems.GroupRuns | scripts/check_waveform_assets.py:58-68 | The runs printed for a group are the runs of its own numbers |
| CompressionTheorems.OutputInOrder | scripts/check_waveform_assets.py:58-71 | The ranges come out in dictionary order of prefix and then suffix, and the names passed through in dictionary order |
| CompressionTheorems.FewestRanges | scripts/check_waveform_assets.py:58-68 | For any names: a group is printed as separated ranges exactly when its numbers strictly increase in the order of the sorted names, and as few as any cover exactly when none comes twice and successors follow directly; among plain names both say that none is listed twice |
| PrintedLines.Readable | scripts/check_waveform_assets.py:40-43 | For any names: the printed list, read line by line, gives back exactly them if and only if every matching one is plain and none looks like a printed range |
| PrintedLines.Ambiguous | scripts/check_waveform_assets.py:40-43 | A name that does look like a range prints as itself and reads back as that range |

## Left out

- Logging, hex dumps, log-rate limiters and `dump_bridge_runtime_metrics`: output only.
- nvIPC internals, semaphores as such, CPU pinning, priorities and sleeps: pools, queues and wake-ups are abstract state. The clock is a parameter: what it reads for a message travels with the message.
- RxThread.RxThread.Start: a start while a stopped loop has not ended yet is not modelled; the code has detached that loop, which would then go on beside the new one.
- RxThread.RxThread.Drain: what the others do is given round by round, before the receive and while the message is in hand, all at once before its dispatch; a stop in the middle of a drain is in the step system alone.
- Gateways.Gateway.SendTxData: what others do between allocation and sending is in the step system alone; the same goes for the other send methods.
- Which buffers `tx_allocate` grants, and when it fails: a parameter (`Grant`).
- The contents of the MCS tables and the environment switch that forces table 0: parameters of the PDSCH writer. Code rates are in tenths, no floats.
- The capacities of OCUDU payload types (UCI bits, SR bits, HARQ values): parameters (`Limits`); the OCUDU headers are not part of this model.
- The unit conversion of a timing advance: the raw value is kept beside the numerology of its slot.
- OCUDU values wider than their wire field: the models hold values that fit. Counts, indices and the TX_DATA TLV length, which the code does cut, are cut here.
- Pointers past the end of a buffer: cursors are offsets, which do not wrap.
- Transport blocks of 2^32 bytes or more.
- The step between 32-bit words and integers in the padding of TX_DATA: `TxData.PaddingOnWords` is about words, `TxData.PaddingAligns` about numbers; both single out the same number.
- The number of hyper frames after which an extended slot starts over, which OCUDU defines: a parameter of the extender.
- A configured numerology of 32 or more: the shift is then undefined in C++; the model goes on with the low 32 bits of the product.
- `slot_point` subtraction, which OCUDU defines: modelled as the signed distance on the circle of one period, from minus half to just below half.
- A change of numerology within one run of the extender: SlotRuns.RunKeepsNumerology says when there is none.
- Surrogate code points in file names: Dafny's characters are Unicode scalar values.
- `collect_h5_names` and the rest of the asset script: file and YAML handling.
- SlotStream.SlotExtender.OnSlotIndication: keeps the raw slots in a ghost field, so its contract speaks of the run so far.
- SrsMessages.RoundTrip: speaks of what is handed over, the heads of the PDUs; the symbol reports are skipped by the code.
- UciTheorems.RoundTrip: for PDUs that fit their own 16-bit size field and payloads within the capacities of the upper layer; longer ones are the business of the theorems on arbitrary bytes.
- TxData.Placements: for a data buffer that is there; without one nothing is copied and every offset is zero.
- `serialize_srs_pdu`'s and the SSB and PRACH writers' own size theorems: fixed-size records, present as cases of the request theorems.
- `nvipc_transport.cpp`, `aerial_split6_plugin.cpp`, `gdr_stub.cpp`, patches, build and deployment files: wrappers, factories and text substitution.
