# Verified model of the vendor headers and shims

A Dafny model of the code in this repository, most of it the HDMI CEC message
codec of `kernel-headers/linux/cec-funcs.h` and `kernel-headers/linux/cec.h`
(message and operand formats: HDMI 1.4b with Supplement 1, chapters CEC 15 and
CEC 17), with five smaller cores: the RIL baseband shim, the BFQ I/O priority
helper, the VIA lock area, the BFS offset arithmetic and the ioctl packer.

## Structure of the CEC model

* `CecOps` - one value of `Op` is one call of a builder with its arguments;
  opcode, broadcast and reply tables.
* `CecWire` - the bytes of a call (`Body`) and its effect on the whole message
  (`Apply`): length, header, buffer, reply and timeout.
* `CecMessage` - the class with the 16-byte array; builders store byte by byte
  and are proved to have exactly the effect `Apply`.  Builders that differ only
  in a constant share a method: opcode-only (26), one-operand (14), one-address
  (5), the set and clear form of each timer, the two 14-byte strings and the two
  14-byte payloads.  `CecEffects` spells `Apply` out store by store.
* `CecDecode`, `CecDecoders` - what the decoders compute on every buffer, and the
  decoders themselves with their in-place stores and loops.
* `CecRead`, `CecCanon`, `CecInjective`, `CecSeparation` - a reference reader, the
  canonical form of a call for all operands (those that overflow their bit field
  included), and the proof that the wire determines exactly the canonical form.
* `CecRoundTrips`, `CecPayloadTrips` - what each decoder returns of the call that
  built the message, with the exact set of calls that return unchanged.
* `CecTables`, `CecLayout`, `CecFields` - the message formats a second time, by
  number: opcode, broadcast and reply tables, the place and value of every operand,
  and what the decoders take out of any buffer, in decimal arithmetic instead of
  shifts and masks; and the proof that the calls and decoders agree with it.
* `CecRun` - whole histories of one buffer: lengths, addresses, the reply field and
  the transmit rule.

Bytes and 16- and 32-bit words are bit vectors, so shifts and stores truncate as
in C.  A pointer into the message is an index, a null pointer is `None`.  A union
is modelled as its overlaid storage (little-endian, as on the target) where the
code relies on the overlay, and as a tagged datatype where a tag selects the arm.
What a decoder leaves untouched in the caller's structure is a parameter `prev`.

## Findings where the code does not keep its own promise

* The major channel number is split at bit 8 by the encoder and joined at bit 6 by
  the decoder: it returns exactly below 256.
* The HEC report decoder reads the ENC state from the host state bits.
* The HEC set-state builder sends the sub-opcode of an inquiry.
* The second scan of `cec_ops_report_features` starts on its own stop byte, so
  unterminated device features are accepted; and when both operands of
  `cec_msg_report_features` carry the extension bit, acceptance depends on bytes
  that an earlier message left behind the six transmitted ones.
* The documentation says that a broadcast with a reply request is rejected on
  transmission.  Three builders can make such a message in one call.  A history
  makes one exactly when a request still stands at its end (builders without a
  `reply` argument do not clear it) and, since the last reply step, the message was
  addressed to everyone or became a broadcast.
* The baseband shim counts characters other than spaces but cuts by position: it
  drops as many of the latest characters as there are spaces.  Where the text has
  a space at all (and fewer than 90), some text with the same spaces loses them;
  with one to six spaces, one of them in the window or behind it, every text does.

The model follows the code in each case.

## Model

| member | source | states |
|---|---|---|
| CecSeparation.Injective | kernel-headers/linux/cec-funcs.h:42-1957 | messages built on fresh headers by any two calls, for all operands, carry equal bytes if and only if their headers and their canonical calls are equal |
| CecSeparation.WireDetermines | kernel-headers/linux/cec-funcs.h:42-1957 | the same for calls on any two used messages: equal bytes if and only if equal headers, equal canonical calls and, for CDC, equal framework bytes |
| CecSeparation.SameWireSameBuilder | kernel-headers/linux/cec.h:507-1013 | equal messages come from the same builder, shared opcodes and the CDC sub-opcodes included |
| CecSeparation.ReadAfterApply | kernel-headers/linux/cec-funcs.h:42-1957 | the reference reader gives back the canonical form of every call, whatever the buffer held before and behind the message |
| CecSeparation.CanonIdempotent | kernel-headers/linux/cec-funcs.h:42-1957 | the canonical form of a call is a call whose canonical form it is |
| CecSeparation.NoResidue | kernel-headers/linux/cec-funcs.h:1716-1957 | one call on two used messages with the same header transmits the same bytes, for CDC if and only if bytes 2 and 3 agree |
| CecCanon.CanonSameBytes | kernel-headers/linux/cec-funcs.h:42-1957 | a call and its canonical form are calls of the same builder with the same bytes |
| CecCanon.CanonDigitalBytes | kernel-headers/linux/cec-funcs.h:218-253 | the canonical service id, with the ambiguity between a by-channel id and an out-of-range head byte, has the same seven bytes |
| CecInjective.ReadMade | kernel-headers/linux/cec-funcs.h:42-1957 | reading the bytes of any call, with anything behind them, yields its canonical form |
| CecInjective.FamilyOfOpcode | kernel-headers/linux/cec.h:507-960 | the opcode constants tell all builder families apart |
| CecInjective.ReadCdcBytes | kernel-headers/linux/cec-funcs.h:1716-1957 | CDC messages read back to their canonical operands; HEC set-state is told from an inquiry only by its length |
| CecTables.EveryCall | kernel-headers/linux/cec-funcs.h:42-1957 | for every call, by number: the opcode stored, destination 15 for the twelve broadcast opcodes and the header unchanged for all others, the reply field by the table of answers, timeout and the bytes behind the message unchanged |
| CecTables.EmptyCall | kernel-headers/linux/cec-funcs.h:320-346 | record_on with an unknown source type changes the reply field only |
| CecTables.OpcodeNumber | kernel-headers/linux/cec.h:507-960 | the opcode number of every call, timers and services by their arm |
| CecTables.OpcodeTables | kernel-headers/linux/cec.h:507-960 | which opcode numbers the table-driven builders take |
| CecTables.BroadcastTable | kernel-headers/linux/cec-funcs.h:42-1957 | exactly twelve opcodes are broadcast |
| CecTables.ReplyTable | kernel-headers/linux/cec-funcs.h:86-1705 | the answer each of the thirty requests waits for |
| CecTables.DigitalCases | kernel-headers/linux/cec-funcs.h:218-253 | the by-channel method is 1 and exactly the systems 0x01, 0x10, 0x11 and 0x12 have two numbers |
| CecTables.CommandNumbers | kernel-headers/linux/cec-funcs.h:1323-1351 | the six commands with a byte operand and the one with a channel |
| CecLayout.EveryFrame | kernel-headers/linux/cec-funcs.h:42-1957 | the operands of every call stand in the message as the standard lays them out: places, lengths and tags as numerals, packed bytes as sums of products, words most significant byte first |
| CecLayout.DigitalLaid | kernel-headers/linux/cec-funcs.h:218-253 | a service id in seven bytes, at any place: head, format, major and minor number, or the numbers of the system with zeros for ATSC |
| CecLayout.FrameTimer | kernel-headers/linux/cec-funcs.h:461-746 | each time below 160 of a timer is two nibbles v / 10 and v % 10, day first, source behind |
| CecLayout.TimerDigits | kernel-headers/linux/cec-funcs.h:461-746 | the four stored times below 100 are their two decimal digits |
| CecLayout.TimerStatusDigits | kernel-headers/linux/cec-funcs.h:413-417 | so are the two stored durations |
| CecLayout.FrameTimerStatus | kernel-headers/linux/cec-funcs.h:397-418 | the status byte as a sum, the two durations as digits, present for exactly three codes |
| CecLayout.FrameCdc | kernel-headers/linux/cec-funcs.h:1716-1957 | sub-opcode, addresses, states and length of the nine CDC messages |
| CecFields.DigitalFields | kernel-headers/linux/cec-funcs.h:255-269 | what the service id decoder returns of any seven bytes, by quotient and remainder |
| CecFields.RecordFields | kernel-headers/linux/cec-funcs.h:348-372 | the five record source tags and the operands of each |
| CecFields.TunerFields | kernel-headers/linux/cec-funcs.h:1035-1048 | the arm by length and its operands |
| CecFields.InfoFields | kernel-headers/linux/cec-funcs.h:420-445 | status fields of any byte, and the duration digits read for exactly three codes |
| CecFields.SlotFields | kernel-headers/linux/cec-funcs.h:503-511 | the timer fields, each time as ten times one nibble plus the other |
| CecFields.UiFields | kernel-headers/linux/cec-funcs.h:1353-1380 | the operand of any message, by command number and length |
| CecFields.LatencyFields | kernel-headers/linux/cec-funcs.h:1679-1694 | the latency fields of any message, the delay only with code 3 and seven bytes |
| CecFields.HecReportFields | kernel-headers/linux/cec-funcs.h:1767-1785 | the report fields of any message; the ENC state is the host state |
| CecFields.HecSetStateFields | kernel-headers/linux/cec-funcs.h:1819-1839 | each optional address is read from its own length on |
| CecFields.TextCounts | kernel-headers/linux/cec-funcs.h:785-1243 | the text lengths for every message length |
| CecFields.PayloadCounts | kernel-headers/linux/cec-funcs.h:1151-1586 | the payload sizes for every message length, with the wrap-around of short messages |
| CecFields.DescriptorCounts | kernel-headers/linux/cec-funcs.h:1547-1555 | the descriptor count for every message length |
| CecFields.InitAndReply | kernel-headers/linux/cec.h:146-170 | every field after init and after a reply, addresses as header digits |
| CecRun.RunLength | kernel-headers/linux/cec.h:146-170 | from init on, every history of builders and replies keeps 1 <= len <= 16 |
| CecRun.BuildsKeepAddresses | kernel-headers/linux/cec-funcs.h:42-1957 | over any run of builders the initiator stays and the destination is 0xf from the first broadcast builder on |
| CecRun.RunAddresses | kernel-headers/linux/cec.h:163-170 | in any history only the last reply and the builders after it decide initiator and destination |
| CecRun.ReplySwaps | kernel-headers/linux/cec.h:163-170 | every reply step exchanges the addresses of the message it answers and clears reply and timeout |
| CecRun.ReplyTwice | kernel-headers/linux/cec.h:154-170 | replying in place twice restores the buffer |
| CecRun.AbortAnswers | kernel-headers/linux/cec-funcs.h:1413-1438 | a reply feature abort carries the old opcode and the reason in bytes 2 and 3, reads back to them, and goes to the old initiator |
| CecRun.HistoryLeavesNoResidue | kernel-headers/linux/cec-funcs.h:42-1957 | after any history a builder transmits what it would on a fresh message, for CDC exactly when the framework bytes are zero |
| CecRun.ReplyAfterRun | kernel-headers/linux/cec-funcs.h:86-93 | the reply field is that of the last step that stores to it; builders without the argument leave an older request standing |
| CecRun.RequestStands | kernel-headers/linux/cec-funcs.h:42-1957 | over any history a reply request stands exactly when the last step that stored to the field asked, or none stored and one stood before |
| CecRun.TransmittableAfterBuilds | kernel-headers/linux/cec.h:60-74 | any run of builders on any message breaks the documented no-reply-on-broadcast rule exactly when a request stands and the message was addressed to 0xf or some builder broadcasts |
| CecRun.TransmittableAfterReply | kernel-headers/linux/cec.h:60-74 | any history with a reply breaks the rule exactly when the builders after the last reply leave a request standing and broadcast, or the answered initiator is 0xf |
| CecRun.BroadcastWithReply | kernel-headers/linux/cec.h:60-74 | one call on a fresh message with any two addresses breaks the rule exactly when it asks for a reply and the destination is 0xf or the builder broadcasts; three broadcast builders can ask |
| CecRun.StaleReplyOnBroadcast | kernel-headers/linux/cec.h:60-74 | a concrete history of two calls in which a stale reply request survives into a broadcast |
| CecRoundTrips.DigitalRoundTrip | kernel-headers/linux/cec-funcs.h:218-269 | a digital service id comes back if and only if system < 128 and the method is by id, or by channel with format < 64 and major < 256 |
| CecRoundTrips.ByIdRoundTrip | kernel-headers/linux/cec-funcs.h:218-269 | whichever builder carries it, an id by number returns both first numbers, and the third one except for exactly the four ATSC systems, for which it is 0 |
| CecRoundTrips.ChannelRoundTrip | kernel-headers/linux/cec-funcs.h:260-264 | for wire-sized channels format and minor always return, major exactly when below 256 |
| CecRoundTrips.DecodedWords | kernel-headers/linux/cec-funcs.h:255-269 | the decoded union words in terms of the encoded ones; ATSC ends in a zero word |
| CecRoundTrips.DigitalEmbedded | kernel-headers/linux/cec-funcs.h:672-695 | every digital builder embeds the seven bytes at its offset: 2, 3 or 9 |
| CecRoundTrips.EmbeddedDigitalRoundTrip | kernel-headers/linux/cec-funcs.h:1089-1101 | the service id result lifted to record source, tuner status, service selection and timers |
| CecRoundTrips.RecordOnRoundTrip | kernel-headers/linux/cec-funcs.h:320-372 | every known record source returns with its arm and operands, if and only if a digital id in it is faithful |
| CecRoundTrips.TunerStatusRoundTrip | kernel-headers/linux/cec-funcs.h:992-1048 | the arm is recovered from the length; analogue operands return, digital ones exactly when faithful, flag and display exactly when they fit |
| CecRoundTrips.TimerRoundTrip | kernel-headers/linux/cec-funcs.h:461-771 | six timer messages: times return modulo 160, analogue and external sources unchanged |
| CecRoundTrips.SlotUnchanged | kernel-headers/linux/cec-funcs.h:464-467 | a timer slot returns unchanged exactly when its four times are below 160 |
| CecPayloadTrips.TimerStatusRoundTrip | kernel-headers/linux/cec-funcs.h:397-445 | in-range operands decode to the normal form, and a duration is read only from a five-byte message |
| CecPayloadTrips.TimerStatusUnchanged | kernel-headers/linux/cec-funcs.h:397-445 | over all operands, exactly which timer statuses return unchanged |
| CecPayloadTrips.CanonInfoInRange | kernel-headers/linux/cec-funcs.h:397-418 | the canonical form of an in-range timer status in terms of its operands |
| CecPayloadTrips.NormalInfoIdempotent | kernel-headers/linux/cec-funcs.h:429-444 | the normal form is its own normal form |
| CecPayloadTrips.UserControlRoundTrip | kernel-headers/linux/cec-funcs.h:1323-1380 | command always, has_opt_arg exactly for the seven commands built with an operand, byte operand and minor always, format and major exactly below 64 and 256 |
| CecPayloadTrips.ReportFeaturesRoundTrip | kernel-headers/linux/cec-funcs.h:876-907 | the operands are stored at 2 to 5 and the device features pointer is 5 exactly when the RC profile has no extension bit; accepted exactly when either operand or a stale byte of msg[6..14] lacks the bit |
| CecPayloadTrips.FeaturesAccepted | kernel-headers/linux/cec-funcs.h:889-907 | accepted exactly when a byte of msg[4..14] lacks the extension bit; when device features are terminated as well |
| CecPayloadTrips.UnterminatedFeaturesAccepted | kernel-headers/linux/cec-funcs.h:901-904 | a buffer with unterminated device features that the no-op second scan accepts |
| CecPayloadTrips.TextRoundTrip | kernel-headers/linux/cec-funcs.h:773-794 | title and OSD name return as the prefix of length min(strlen mod 2^32, 14) |
| CecPayloadTrips.OsdStringRoundTrip | kernel-headers/linux/cec-funcs.h:1218-1243 | the OSD string returns as the prefix of length min(strlen mod 2^32, 13), with its control byte |
| CecPayloadTrips.PrefixIsLongest | kernel-headers/linux/cec-funcs.h:776-779 | that prefix is the longest possible exactly when the 32-bit length lost nothing that mattered |
| CecPayloadTrips.BlobRoundTrip | kernel-headers/linux/cec-funcs.h:1141-1208 | vendor command and remote button payloads return as the first min(size, 14) bytes |
| CecPayloadTrips.VendorCommandWithIdRoundTrip | kernel-headers/linux/cec-funcs.h:1162-1186 | payload as the first min(size, 11) bytes, vendor id modulo 2^24 |
| CecPayloadTrips.ReportDescriptorsRoundTrip | kernel-headers/linux/cec-funcs.h:1530-1560 | min(num, 4) descriptors return modulo 2^24, len = 2 + 3n, bytes behind untouched |
| CecPayloadTrips.RequestDescriptorsRoundTrip | kernel-headers/linux/cec-funcs.h:1562-1594 | min(num, 4) pairs return modulo 4 and 64, bytes behind untouched |
| CecPayloadTrips.CanonLatencyInRange | kernel-headers/linux/cec-funcs.h:1661-1677 | the canonical form of a latency report in terms of its operands |
| CecPayloadTrips.ReportLatencyRoundTrip | kernel-headers/linux/cec-funcs.h:1661-1694 | a latency report returns if and only if mode < 2, code < 4 and a delay goes only with code 3 |
| CecPayloadTrips.HecReportDecoded | kernel-headers/linux/cec-funcs.h:1741-1785 | in-range reports return with the ENC state replaced by the host state |
| CecPayloadTrips.HecReportRoundTrip | kernel-headers/linux/cec-funcs.h:1741-1785 | over all operands a HEC report returns if and only if the states fit, ENC equals host, and a field comes with its flag |
| CecPayloadTrips.HecSetStateDecoded | kernel-headers/linux/cec-funcs.h:1787-1839 | the optional addresses return as the longest valid prefix, with len 10, 12, 14 or 16 |
| CecPayloadTrips.HecSetStateRoundTrip | kernel-headers/linux/cec-funcs.h:1787-1839 | all addresses return if and only if their validity is prefix-closed |
| CecPayloadTrips.HecSetStateLooksLikeInquiry | kernel-headers/linux/cec-funcs.h:1799-1804 | a HEC set-state starts with the nine bytes of an inquiry and differs in length only |
| CecPayloadTrips.NoSetStateSubOpcode | kernel-headers/linux/cec.h:989-990 | no CDC builder ever sends the SET_STATE sub-opcode |
| CecBytes.BcdRoundTrip | kernel-headers/linux/cec-funcs.h:415-416 | a BCD field keeps a byte modulo 160, exactly below 160 |
| CecBytes.TripleBytes | kernel-headers/linux/cec-funcs.h:1117-1131 | three transmitted bytes keep a value modulo 2^24 |
| CecMessages.CecMessage.constructor | kernel-headers/linux/cec.h:146-152 | a fresh message is the zeroed poll message with the two addresses |
| CecMessages.CecMessage.Initialize | kernel-headers/linux/cec.h:146-152 | init of a used structure gives the same state |
| CecMessages.CecMessage.SetReplyTo | kernel-headers/linux/cec.h:163-170 | header from the original, reply and timeout cleared; the original may be the message itself |
| CecMessages.CecMessage.ReplyFeatureAbort | kernel-headers/linux/cec-funcs.h:1431-1438 | the state is that of a reply to self followed by a feature abort naming the old opcode |
| CecMessages.CecMessage.BuildBare | kernel-headers/linux/cec-funcs.h:57-1657 | 26 opcode-only builders: the whole new structure is the specified effect of the call |
| CecMessages.CecMessage.BuildOneByte | kernel-headers/linux/cec-funcs.h:374-1604 | 14 one-operand builders: the same |
| CecMessages.CecMessage.BuildAddress | kernel-headers/linux/cec-funcs.h:42-1706 | five physical address builders: the same |
| CecMessages.CecMessage.BuildRoutingChange | kernel-headers/linux/cec-funcs.h:111-124 | the whole new structure is the specified effect |
| CecMessages.CecMessage.BuildFeatureAbort | kernel-headers/linux/cec-funcs.h:1414-1421 | the same |
| CecMessages.CecMessage.BuildReportPhysicalAddr | kernel-headers/linux/cec-funcs.h:818-827 | the same |
| CecMessages.CecMessage.BuildReportFeatures | kernel-headers/linux/cec-funcs.h:876-887 | the same |
| CecMessages.CecMessage.BuildDeviceVendorId | kernel-headers/linux/cec-funcs.h:1117-1125 | the same |
| CecMessages.CecMessage.BuildText | kernel-headers/linux/cec-funcs.h:773-783 | clamped string copy; the same, with cec_msg_set_osd_name |
| CecMessages.CecMessage.BuildOsdString | kernel-headers/linux/cec-funcs.h:1218-1230 | clamped string copy; the same |
| CecMessages.CecMessage.BuildBlob | kernel-headers/linux/cec-funcs.h:1141-1149 | clamped payload copy; the same, with cec_msg_vendor_remote_button_down |
| CecMessages.CecMessage.BuildVendorCommandWithId | kernel-headers/linux/cec-funcs.h:1162-1174 | clamped payload copy; the same |
| CecMessages.CecMessage.BuildSetMenuLanguage | kernel-headers/linux/cec-funcs.h:844-851 | the same |
| CecMessages.CecMessage.SetDigitalServiceId | kernel-headers/linux/cec-funcs.h:218-253 | exactly seven bytes become the specified encoding of the union overlay |
| CecMessages.CecMessage.BuildRecordOwn | kernel-headers/linux/cec-funcs.h:271-276 | the effect of record_on without its reply store |
| CecMessages.CecMessage.BuildRecordDigital | kernel-headers/linux/cec-funcs.h:278-285 | the same |
| CecMessages.CecMessage.BuildRecordAnalogue | kernel-headers/linux/cec-funcs.h:287-299 | the same |
| CecMessages.CecMessage.BuildRecordPlug | kernel-headers/linux/cec-funcs.h:301-308 | the same |
| CecMessages.CecMessage.BuildRecordExtAddress | kernel-headers/linux/cec-funcs.h:310-318 | the same |
| CecMessages.CecMessage.BuildRecordOn | kernel-headers/linux/cec-funcs.h:320-346 | dispatch on the source type; an unknown type stores only the reply field |
| CecMessages.CecMessage.BuildTunerAnalogue | kernel-headers/linux/cec-funcs.h:992-1006 | the specified effect |
| CecMessages.CecMessage.BuildTunerDigital | kernel-headers/linux/cec-funcs.h:1008-1016 | the specified effect |
| CecMessages.CecMessage.BuildTunerStatus | kernel-headers/linux/cec-funcs.h:1018-1033 | dispatch on is_analog |
| CecMessages.CecMessage.BuildSelectAnalogue | kernel-headers/linux/cec-funcs.h:1066-1077 | the specified effect |
| CecMessages.CecMessage.BuildSelectDigital | kernel-headers/linux/cec-funcs.h:1089-1095 | the specified effect |
| CecMessages.CecMessage.BuildTimerStatus | kernel-headers/linux/cec-funcs.h:397-418 | the specified effect, duration included only for three codes |
| CecMessages.CecMessage.BuildAnalogueTimer | kernel-headers/linux/cec-funcs.h:617-645 | set and clear: the specified effect |
| CecMessages.CecMessage.BuildDigitalTimer | kernel-headers/linux/cec-funcs.h:672-695 | set and clear: the specified effect |
| CecMessages.CecMessage.BuildExtTimer | kernel-headers/linux/cec-funcs.h:718-746 | set and clear: the specified effect |
| CecMessages.CecMessage.BuildUserControl | kernel-headers/linux/cec-funcs.h:1323-1351 | the specified effect for byte, channel and no operand |
| CecMessages.CecMessage.BuildAudioStatus | kernel-headers/linux/cec-funcs.h:1448-1455 | the specified effect |
| CecMessages.CecMessage.BuildSystemAudioRequest | kernel-headers/linux/cec-funcs.h:1487-1497 | the specified effect, with the two stores behind a two-byte message |
| CecMessages.CecMessage.BuildReportDescriptors | kernel-headers/linux/cec-funcs.h:1530-1545 | the packing loop produces the specified bytes and nothing else changes |
| CecMessages.CecMessage.BuildRequestDescriptors | kernel-headers/linux/cec-funcs.h:1562-1578 | the packing loop produces the specified bytes and nothing else changes |
| CecMessages.CecMessage.BuildReportLatency | kernel-headers/linux/cec-funcs.h:1661-1677 | the specified effect, with the appended delay |
| CecMessages.CecMessage.BuildHecInquireState | kernel-headers/linux/cec-funcs.h:1716-1729 | the specified effect; bytes 2 and 3 stay |
| CecMessages.CecMessage.BuildHecReportState | kernel-headers/linux/cec-funcs.h:1741-1765 | the same |
| CecMessages.CecMessage.BuildHecSetState | kernel-headers/linux/cec-funcs.h:1787-1817 | the same; optional addresses appended through len++ |
| CecMessages.CecMessage.BuildHecSetStateAdjacent | kernel-headers/linux/cec-funcs.h:1841-1853 | the same |
| CecMessages.CecMessage.BuildHecRequestDeactivation | kernel-headers/linux/cec-funcs.h:1865-1881 | the same |
| CecMessages.CecMessage.BuildHecNotifyAlive | kernel-headers/linux/cec-funcs.h:1895-1902 | the same |
| CecMessages.CecMessage.BuildHecDiscover | kernel-headers/linux/cec-funcs.h:1910-1917 | the same |
| CecMessages.CecMessage.BuildHpdSetState | kernel-headers/linux/cec-funcs.h:1925-1935 | the same |
| CecMessages.CecMessage.BuildHpdReportState | kernel-headers/linux/cec-funcs.h:1947-1957 | the same |
| CecDecoders.GetDigitalServiceId | kernel-headers/linux/cec-funcs.h:255-269 | the decoded structure on every buffer, padding byte of the union kept |
| CecDecoders.OpsRecordOn | kernel-headers/linux/cec-funcs.h:348-372 | tag dispatch on every buffer |
| CecDecoders.OpsTunerStatus | kernel-headers/linux/cec-funcs.h:1035-1048 | flag, display and service on every buffer and length |
| CecDecoders.OpsTimerStatus | kernel-headers/linux/cec-funcs.h:420-445 | codes and conditional duration on every buffer |
| CecDecoders.OpsAnalogueTimer | kernel-headers/linux/cec-funcs.h:647-670 | set and clear |
| CecDecoders.OpsDigitalTimer | kernel-headers/linux/cec-funcs.h:697-716 | set and clear |
| CecDecoders.OpsExtTimer | kernel-headers/linux/cec-funcs.h:748-771 | set and clear |
| CecDecoders.OpsFeatureAbort | kernel-headers/linux/cec-funcs.h:1423-1428 | the aborted opcode and the reason |
| CecDecoders.OpsText | kernel-headers/linux/cec-funcs.h:785-794 | clamped prefix, terminator, and nothing behind it; with cec_ops_set_osd_name |
| CecDecoders.OpsOsdString | kernel-headers/linux/cec-funcs.h:1232-1243 | the same after the control byte |
| CecDecoders.OpsBlob | kernel-headers/linux/cec-funcs.h:1151-1160 | size through 32-bit subtraction and 8-bit store, never past the buffer |
| CecDecoders.OpsVendorCommandWithId | kernel-headers/linux/cec-funcs.h:1176-1186 | the same after the vendor id |
| CecDecoders.ScanExtensions | kernel-headers/linux/cec-funcs.h:898-903 | each scanning loop stops at the first byte without the extension bit or at its bound |
| CecDecoders.OpsReportFeatures | kernel-headers/linux/cec-funcs.h:889-907 | both pointers null exactly when no byte of msg[4..14] ends the profile, else 4 and one past the first such byte |
| CecDecoders.OpsUserControlPressed | kernel-headers/linux/cec-funcs.h:1353-1380 | command, operand flag and operand on every buffer and length |
| CecDecoders.OpsReportDescriptors | kernel-headers/linux/cec-funcs.h:1547-1560 | the unpacking loop on every length, the output array past the count untouched |
| CecDecoders.OpsRequestDescriptors | kernel-headers/linux/cec-funcs.h:1580-1594 | the same for the two output arrays |
| CecDecoders.OpsReportLatency | kernel-headers/linux/cec-funcs.h:1679-1694 | on every buffer and length |
| CecDecoders.OpsHecReportState | kernel-headers/linux/cec-funcs.h:1767-1785 | on every buffer and length, ENC state read from the host bits |
| CecDecoders.OpsHecSetState | kernel-headers/linux/cec-funcs.h:1819-1839 | on every buffer and length |
| RilShim.Shim.Shorten | libril-wrapper/ril-wrapper.c:66-86 | the counting and copying loops yield the 45-character window, or nothing when the text is not too long |
| RilShim.Shim.OnRequestCompleteShim | libril-wrapper/ril-wrapper.c:44-94 | exactly one completion on every path: the one passed in, unless it is a baseband version with more than 45 non-spaces; then only its response changes, to 45 characters that end (number of spaces) before the end |
| RilShim.WindowPosition | libril-wrapper/ril-wrapper.c:79-85 | the window has 45 characters, is in bounds, and exactly (number of spaces) latest characters are dropped behind it |
| RilShim.ShortUnchanged | libril-wrapper/ril-wrapper.c:80-87 | a text of at most 45 non-spaces is forwarded unchanged |
| RilShim.SpacesCounted | libril-wrapper/ril-wrapper.c:72-77 | what is left out of the count are exactly the space characters |
| RilShim.LatestCharactersKept | libril-wrapper/ril-wrapper.c:56-60 | the shim keeps the promised latest characters for all texts with a given layout of spaces if and only if the layout has no space (or both 45-character pieces are blank, which takes 90 spaces) |
| RilShim.FewSpacesLose | libril-wrapper/ril-wrapper.c:56-60 | with one to six spaces, any space from the start of the window on means that the latest characters are lost |
| RilShim.SevenSpacesCanKeep | libril-wrapper/ril-wrapper.c:56-60 | six is the limit: a text with seven spaces whose window has the same content by repetition |
| RilShim.BlankNeedsNinety | libril-wrapper/ril-wrapper.c:79-85 | window and last characters are both blank only in texts with at least 90 spaces |
| RilShim.LatestCharacterLost | libril-wrapper/ril-wrapper.c:56-60 | a text whose last character is dropped |
| RilShim.ResultFits | libril-wrapper/ril-wrapper.c:56-60 | the forwarded text fits 45 characters if and only if it was short or has more than 45 non-spaces |
| RtIoPrio.RtIoPrio.Itoa | libbfqio/bfqio.c:63-71 | the backwards loop stays in the 22-byte buffer and leaves the numeral of the thread id before the terminator |
| RtIoPrio.RtIoPrio.InitializeOnce | libbfqio/bfqio.c:31-42 | support is probed by the first call only |
| RtIoPrio.RtIoPrio.SetRtIoPrio | libbfqio/bfqio.c:39-89 | the exact sequence of open, write and close, and the result, on every path |
| RtIoPrio.CallOutcome | libbfqio/bfqio.c:39-89 | which file is opened, which id is written where, what is closed and returned, ESRCH included; what the probe decides |
| RtIoPrio.DigitNumerals | libbfqio/bfqio.c:69-70 | the ten digits |
| RtIoPrio.DecimalParses | libbfqio/bfqio.c:68-71 | the numeral parses to its number and has no leading zero |
| RtIoPrio.NumeralUnique | libbfqio/bfqio.c:68-71 | a digit string without leading zero is the numeral of its value |
| RtIoPrio.WrittenText | libbfqio/bfqio.c:63-73 | the text written is empty exactly for ids <= 0, otherwise the unique numeral |
| RtIoPrio.RtIoPrio.RunCalls | libbfqio/bfqio.c:31-89 | any sequence of calls: the first probe decides, every result, the whole log, and no descriptor stays open |
| RtIoPrio.RunBalances | libbfqio/bfqio.c:47-88 | over any run of calls every opened descriptor is closed exactly once and nothing else is written or closed |
| ViaLocks.LocksAlignedInside | kernel-headers/drm/via_drm.h:42-46 | for every base address each lock pointer is 64-byte aligned and its lock lies inside XvMCLockArea |
| ViaLocks.LocksDisjoint | kernel-headers/drm/via_drm.h:40-46 | the locks occupy different cache lines |
| ViaLocks.SlackNeeded | kernel-headers/drm/via_drm.h:191-197 | the extra cache line of the area is needed exactly when the area is not aligned |
| ViaLocks.MaskClearsLowBits | kernel-headers/drm/via_drm.h:44-45 | the bitwise and with the sign-extended mask rounds every unsigned long down to its cache line |
| BfsLayout.InodeRoundTrip | kernel-headers/linux/bfs_fs.h:64-68 | OFF2INO after INO2OFF keeps ino - 2 modulo 2^26, in wrapping 32-bit arithmetic |
| BfsLayout.InodeRoundTripExact | kernel-headers/linux/bfs_fs.h:64-68 | it is exact if and only if 2 <= ino < 2^26 + 2 |
| BfsLayout.OffsetRoundTrip | kernel-headers/linux/bfs_fs.h:64-68 | INO2OFF after OFF2INO is the greatest inode boundary not behind the offset |
| BfsLayout.SizeOfNonempty | kernel-headers/linux/bfs_fs.h:69-73 | the wrapped size of a nonempty file is its true size |
| BfsLayout.EmptyFile | kernel-headers/linux/bfs_fs.h:69-76 | exactly which files have size 0, and which have no block |
| BfsLayout.InodePlace | kernel-headers/linux/bfs_fs.h:67-68 | inode 2 at byte 512 and the others 64 bytes apart |
| BfsLayout.BlocksMatchSize | kernel-headers/linux/bfs_fs.h:69-76 | FILEBLOCKS is FILESIZE rounded up to blocks if and only if the end block is that of the end offset |
| IoctlCodes.PackUnpack | kernel-headers/asm-generic/ioctl.h:65-86 | for all overridable widths the four extractors return all fields if and only if all are in range |
| IoctlCodes.PackedNumber | kernel-headers/asm-generic/ioctl.h:39-69 | the fields of an in-range packing by division |
| IoctlCodes.DefaultWidths | kernel-headers/asm-generic/ioctl.h:27-33 | the number with the default widths as a sum |
| IoctlCodes.UnpackPack | kernel-headers/asm-generic/ioctl.h:22-46 | packing the extracted fields returns every number if and only if the widths use all 32 bits |

## Left out

- The remaining decoders (`cec_ops_active_source`, `cec_ops_record_status`, `cec_ops_report_audio_status`, `cec_ops_system_audio_mode_request`, the short CDC ones and so on) are one or two stores without a case that matters; what their messages carry is covered by the reference reader.
- The fields of `struct cec_msg` that no helper reads or writes after `cec_msg_init` (time stamps, sequence, flags, status and counters).
- Decoders assume the buffer of 16 bytes that the structure always has; what a caller makes of bytes behind `len` is not modelled.
- `cec_has_*`, `cec_is_*` and `cec_msg_status_is_ok`: one-line predicates over constants.
- The embedding into C memory: a text is a sequence without its terminator, `memcpy` and `memset` are array assignments, and the caller's output arrays are distinct from the message.
- CecMessages.CecMessage.BuildText: a C string of 2^32 characters or more is cut by the 32-bit length variable, which is modelled; that such a string could not be stored on a 32-bit target is not.
- RilShim.Shim.Shorten: the counters are unbounded integers; in C they are `int`, and a text of 2^31 characters or more would overflow them. The missing terminator and the lifetime of the stack buffer are not modelled, only the characters handed on.
- RtIoPrio.RtIoPrio.SetRtIoPrio: the outcomes of `access`, `open`, `write`, `errno` and `gettid` are parameters; logging and thread safety of `pthread_once` are not modelled.
- BfsLayout.InodeRoundTrip: `sizeof(struct bfs_inode)` is the constant 64, and `le32_to_cpu` is the identity of a little-endian host.
- IoctlCodes.PackUnpack: with a size width of 16 and a direction width of 0 the direction shift is 32, which C leaves undefined for a 32-bit operand; the model shifts everything out.
- ViaLocks.LocksAlignedInside: stated for areas that do not wrap around the 64-bit address space.
- `RIL_Init`, `recovery/recovery_ui.cpp` and all headers with only constants and structure layouts.
