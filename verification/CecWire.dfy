/** What the builders put on the wire, and the effect of one call on a message. */
module CecWire {
  import opened CecBytes
  import opened CecOps

  const MAX_MSG_SIZE := 16

  type Buffer = b: seq<bv8> | |b| == 16 witness [0, 0, 0, 0, 0, 0, 0, 0, 0, 0, 0, 0, 0, 0, 0, 0]

  const ZEROED: Buffer := [0, 0, 0, 0, 0, 0, 0, 0, 0, 0, 0, 0, 0, 0, 0, 0]

  /** The fields of `struct cec_msg` that the helpers touch. */
  datatype Msg = Msg(len: u32, timeout: u32, reply: bv8, buf: Buffer)

  /** Format and major number share 16 bits. */
  function ChannelWord(format: bv8, major: bv16): bv16 { Word(ChannelHigh(format, major), Lo(major)) }

  function ChannelHigh(format: bv8, major: bv16): bv8 { (format << 2) | Hi(major) }

  function ChannelFormat(w: bv16): bv8 { (w >> 10) as bv8 }

  function ChannelMajor(w: bv16): bv16 { w & 0x3ff }

  function DigitalHead(d: Digital): bv8 { FlagByte(d.idMethod, d.system) }

  /** The three words sent after the head byte. */
  function DigitalWords(d: Digital): (bv16, bv16, bv16) {
    if d.ByChannel() then (ChannelWord(d.Format(), d.w1), d.w2, 0)
    else if d.Atsc() then (d.w0, d.w1, 0)
    else (d.w0, d.w1, d.w2)
  }

  function DigitalBytes(d: Digital): (s: seq<bv8>)
    ensures |s| == 7
  {
    var (w0, w1, w2) := DigitalWords(d);
    [DigitalHead(d), Hi(w0), Lo(w0), Hi(w1), Lo(w1), Hi(w2), Lo(w2)]
  }

  function AnalogueBytes(a: Analogue): (s: seq<bv8>)
    ensures |s| == 4
  {
    [a.bcastType, Hi(a.freq), Lo(a.freq), a.system]
  }

  function ServiceBytes(s: Service): (r: seq<bv8>)
    ensures 4 <= |r| <= 7
  {
    match s
    case AnalogueService(a) => AnalogueBytes(a)
    case DigitalService(d) => DigitalBytes(d)
  }

  function RecordSrcBytes(src: RecordSrc): (s: seq<bv8>)
    ensures |s| <= 8
  {
    match src
    case Own => [RECORD_SRC_OWN]
    case DigitalSrc(d) => [RECORD_SRC_DIGITAL] + DigitalBytes(d)
    case AnalogueSrc(a) => [RECORD_SRC_ANALOG] + AnalogueBytes(a)
    case Plug(plug) => [RECORD_SRC_EXT_PLUG, plug]
    case ExtAddress(addr) => [RECORD_SRC_EXT_PHYS_ADDR, Hi(addr), Lo(addr)]
    case UnknownSrc(_) => []
  }

  /** A timer status carries a duration exactly when one of these codes was given. */
  predicate HasDuration(t: TimerInfo) {
    || t.progInfo == PROG_INFO_NOT_ENOUGH_SPACE
    || t.progInfo == PROG_INFO_MIGHT_NOT_BE_ENOUGH_SPACE
    || t.progError == PROG_ERROR_DUPLICATE
  }

  function TimerInfoByte(t: TimerInfo): bv8 {
    (t.overlap << 7) | (t.media << 5) | (if t.progInfo != 0 then 0x10 | t.progInfo else t.progError)
  }

  function TimerInfoBytes(t: TimerInfo): seq<bv8> {
    [TimerInfoByte(t)] + if HasDuration(t) then [Bcd(t.hr), Bcd(t.min)] else []
  }

  function SlotBytes(t: TimerSlot): (s: seq<bv8>)
    ensures |s| == 7
  {
    [t.day, t.month, Bcd(t.startHr), Bcd(t.startMin), Bcd(t.durHr), Bcd(t.durMin), t.recSeq]
  }

  function TimerSrcBytes(src: TimerSrc): (s: seq<bv8>)
    ensures 4 <= |s| <= 7
  {
    match src
    case AnalogueTimer(a) => AnalogueBytes(a)
    case DigitalTimer(d) => DigitalBytes(d)
    case ExtTimer(spec, plug, addr) => [spec, plug, Hi(addr), Lo(addr)]
  }

  function UiBytes(u: UiCommand): (s: seq<bv8>)
    ensures 1 <= |s| <= 5
  {
    [u.cmd] +
    if u.hasArg && u.TakesByte() then [u.first]
    else if u.hasArg && u.TakesChannel() then
      (var w := ChannelWord(u.first, u.major); [Hi(w), Lo(w), Hi(u.minor), Lo(u.minor)])
    else []
  }

  function DescriptorBytes(ds: seq<bv32>): (s: seq<bv8>)
    ensures |s| == 3 * |ds|
  {
    if ds == [] then []
    else
      var d := ds[|ds| - 1];
      DescriptorBytes(ds[..|ds| - 1]) + [Byte2(d), Byte1(d), Byte0(d)]
  }

  function FormatByte(id: bv8, code: bv8): bv8 { (id << 6) | (code & 0x3f) }

  function FormatBytes(ids: seq<bv8>, codes: seq<bv8>): (s: seq<bv8>)
    requires |ids| == |codes|
    ensures |s| == |ids|
  {
    seq(|ids|, i requires 0 <= i < |ids| => FormatByte(ids[i], codes[i]))
  }

  /** The optional addresses of `cec_msg_cdc_hec_set_state`: each is written only
      when it and all the ones before it are valid. */
  function OptionalAddrBytes(addrs: seq<bv16>): (s: seq<bv8>)
    ensures |s| <= 2 * |addrs|
  {
    if addrs == [] || addrs[0] == PHYS_ADDR_INVALID then []
    else [Hi(addrs[0]), Lo(addrs[0])] + OptionalAddrBytes(addrs[1..])
  }

  function HecStateByte(hec: bv8, host: bv8, enc: bv8, err: bv8): bv8 {
    (hec << 6) | (host << 4) | (enc << 2) | err
  }

  function NibbleByte(hi: bv8, lo: bv8): bv8 { (hi << 4) | lo }

  function FlagByte(flag: bv8, low: bv8): bv8 { (flag << 7) | low }

  function FlagHigh(b: bv8): bv8 { b >> 7 }

  function FlagLow(b: bv8): bv8 { b & 0x7f }

  function LatencyByte(lowLatency: bv8, compensated: bv8): bv8 { (lowLatency << 2) | compensated }

  function LatencyMode(b: bv8): bv8 { b >> 2 }

  function LatencyCode(b: bv8): bv8 { b & 3 }

  function CdcBytes(c: CdcOp): (s: seq<bv8>)
    ensures 1 <= |s| <= 12
  {
    match c
    case HecInquireState(a1, a2) =>
      [CDC_HEC_INQUIRE_STATE, Hi(a1), Lo(a1), Hi(a2), Lo(a2)]
    case HecReportState(target, hec, host, enc, err, hasField, field) =>
      [CDC_HEC_REPORT_STATE, Hi(target), Lo(target), HecStateByte(hec, host, enc, err)] +
      if hasField then [Hi(field), Lo(field)] else []
    // The builder writes the INQUIRE_STATE sub-opcode here, not SET_STATE.
    case HecSetState(a1, a2, state, a3, a4, a5) =>
      [CDC_HEC_INQUIRE_STATE, Hi(a1), Lo(a1), Hi(a2), Lo(a2), state] + OptionalAddrBytes([a3, a4, a5])
    case HecSetStateAdjacent(a1, state) =>
      [CDC_HEC_SET_STATE_ADJACENT, Hi(a1), Lo(a1), state]
    case HecRequestDeactivation(a1, a2, a3) =>
      [CDC_HEC_REQUEST_DEACTIVATION, Hi(a1), Lo(a1), Hi(a2), Lo(a2), Hi(a3), Lo(a3)]
    case HecNotifyAlive => [CDC_HEC_NOTIFY_ALIVE]
    case HecDiscover => [CDC_HEC_DISCOVER]
    case HpdSetState(port, hpd) => [CDC_HPD_SET_STATE, NibbleByte(port, hpd)]
    case HpdReportState(hpd, hpdError) => [CDC_HPD_REPORT_STATE, NibbleByte(hpd, hpdError)]
  }

  /** The operand bytes of an effective call.  A CDC message leaves bytes 2 and 3
      of the buffer (`p` and `q`) to the framework and carries what they hold. */
  function Operands(op: Op, p: bv8, q: bv8): seq<bv8>
    requires Valid(op)
  {
    match op
    case Bare(_, _) => []
    case OneByte(_, _, operand) => [operand]
    case Address(_, _, addr) => [Hi(addr), Lo(addr)]
    case RoutingChange(_, from, to) => [Hi(from), Lo(from), Hi(to), Lo(to)]
    case RecordOn(_, src) => RecordSrcBytes(src)
    case TimerStatus(info) => TimerInfoBytes(info)
    case Timer(_, _, slot, src) => SlotBytes(slot) + TimerSrcBytes(src)
    case Text(_, text) => text[..Min(StrLen(text), 14)]
    case OsdString(ctl, text) => [ctl] + text[..Min(StrLen(text), 13)]
    case Blob(_, size, data) => data[..Min(size, 14)]
    case VendorCommandWithId(vendor, size, data) =>
      [Byte2(vendor), Byte1(vendor), Byte0(vendor)] + data[..Min(size, 11)]
    case ReportPhysicalAddr(addr, devType) => [Hi(addr), Lo(addr), devType]
    case SetMenuLanguage(language) => language[..3]
    case ReportFeatures(version, devTypes, rcProfile, devFeatures) =>
      [version, devTypes, rcProfile, devFeatures]
    case TunerStatus(recFlag, display, service) => [FlagByte(recFlag, display)] + ServiceBytes(service)
    case SelectService(service) => ServiceBytes(service)
    case DeviceVendorId(vendor) => [Byte2(vendor), Byte1(vendor), Byte0(vendor)]
    case UserControl(ui) => UiBytes(ui)
    case FeatureAbort(aborted, reason) => [aborted, reason]
    case AudioStatus(mute, volume) => [FlagByte(mute, FlagLow(volume))]
    case SystemAudioRequest(_, addr) => if addr == 0xffff then [] else [Hi(addr), Lo(addr)]
    case ReportDescriptors(num, descriptors) => DescriptorBytes(descriptors[..Min(num, 4)])
    case RequestDescriptors(_, num, ids, codes) => FormatBytes(ids[..Min(num, 4)], codes[..Min(num, 4)])
    case ReportLatency(addr, video, lowLatency, compensated, delay) =>
      [Hi(addr), Lo(addr), video, LatencyByte(lowLatency, compensated)] + if compensated == 3 then [delay] else []
    case Cdc(cdc) => [p, q] + CdcBytes(cdc)
  }

  /** Everything after the header byte. */
  function Body(op: Op, p: bv8, q: bv8): seq<bv8>
    requires Valid(op)
  {
    if Effective(op) then [Opcode(op)] + Operands(op, p, q) else []
  }

  lemma BodyFits(op: Op, p: bv8, q: bv8)
    requires Valid(op)
    ensures |Body(op, p, q)| <= 15
  {
  }

  /** `msg->msg[0] |= 0xf`. */
  function AsBroadcast(header: bv8): bv8 { header | 0xf }

  function Header(op: Op, header: bv8): bv8 {
    if Effective(op) && IsBroadcast(Opcode(op)) then AsBroadcast(header) else header
  }

  /** `cec_msg_system_audio_mode_request` stores the address 0xffff behind the
      end of the two-byte message; no other builder writes past its length. */
  function Scratch(op: Op): seq<bv8> {
    if op.SystemAudioRequest? && op.addr == 0xffff then [0xff, 0xff] else []
  }

  function Splice(buf: Buffer, s: seq<bv8>): Buffer
    requires |s| <= 16
  {
    s + buf[|s|..]
  }

  /** The reply field after a call. */
  function ReplyAfter(op: Op, reply: bv8): bv8 {
    if ReplyOpcode(Opcode(op)) == 0 then reply
    else if ReplyFlag(op) then ReplyOpcode(Opcode(op))
    else 0
  }

  /** The effect of the call `op` on the message `m`. */
  function Apply(m: Msg, op: Op): Msg
    requires Valid(op)
  {
    BodyFits(op, m.buf[2], m.buf[3]);
    var body := Body(op, m.buf[2], m.buf[3]);
    var len := if Effective(op) then 1 + |body| else m.len;
    Msg(len, m.timeout, ReplyAfter(op, m.reply),
        Splice(m.buf, [Header(op, m.buf[0])] + body + Scratch(op)))
  }

  // ---------- Header helpers and replies ----------

  function Initiator(header: bv8): bv8 { header >> 4 }

  function Destination(header: bv8): bv8 { header & 0xf }

  function AddressPair(initiator: bv8, destination: bv8): bv8 { (initiator << 4) | destination }

  /** `cec_msg_init`. */
  function Init(initiator: bv8, destination: bv8): Msg {
    Msg(1, 0, 0, ZEROED[0 := AddressPair(initiator, destination)])
  }

  function ReplyHeader(header: bv8): bv8 { AddressPair(Destination(header), Initiator(header)) }

  /** `cec_msg_set_reply_to`. */
  function ReplyTo(m: Msg, orig: Msg): Msg {
    m.(timeout := 0, reply := 0, buf := m.buf[0 := ReplyHeader(orig.buf[0])])
  }

  lemma ReplyToFields(m: Msg, orig: Msg)
    ensures ReplyTo(m, orig) == Msg(m.len, 0, 0, [ReplyHeader(orig.buf[0])] + m.buf[1..])
  {
  }
}
