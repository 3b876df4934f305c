/** The canonical form of a call, and a reference reader for everything the
builders can put on the wire. */
module CecRead {
  import opened Options
  import opened CecBytes
  import opened CecOps
  import opened CecWire

  // ---------- Canonical form: what survives of a call, in terms of its arguments ----------

  function CanonChannel(format: bv8, major: bv16): (bv8, bv16) {
    ((format & 0x3f) | Lo(major >> 10), major & 0x3ff)
  }

  /** A by-channel id keeps 6 + 10 + 16 bits.  Another id keeps its words, except
      that ATSC loses the third.  A head byte with the top bit set and a zero
      last word cannot be told from a channel. */
  function CanonDigital(d: Digital): Digital {
    var head := DigitalHead(d);
    if d.ByChannel() then
      var (format, major) := CanonChannel(d.Format(), d.w1);
      Digital(1, d.system & 0x7f, format as bv16, major, d.w2)
    else
      var w2 := if d.Atsc() then 0 else d.w2;
      if head < 0x80 then Digital(0, head, d.w0, d.w1, w2)
      else if w2 == 0 then Digital(1, head & 0x7f, ChannelFormat(d.w0) as bv16, ChannelMajor(d.w0), d.w1)
      else Digital(0, head, d.w0, d.w1, w2)
  }

  /** A one-bit flag above seven bits, into which an eighth bit would spill. */
  function CanonFlag(flag: bv8, low: bv8): bv8 { (flag & 1) | (low >> 7) }

  function CanonService(s: Service): Service {
    match s
    case AnalogueService(a) => s
    case DigitalService(d) => DigitalService(CanonDigital(d))
  }

  function CanonRecordSrc(src: RecordSrc): RecordSrc {
    match src
    case DigitalSrc(d) => DigitalSrc(CanonDigital(d))
    case _ => src
  }

  function CanonSlot(t: TimerSlot): TimerSlot {
    TimerSlot(t.day, t.month, Mod160(t.startHr), Mod160(t.startMin), Mod160(t.durHr), Mod160(t.durMin), t.recSeq)
  }

  function CanonTimerSrc(src: TimerSrc): TimerSrc {
    match src
    case DigitalTimer(d) => DigitalTimer(CanonDigital(d))
    case _ => src
  }

  /** The operands whose status byte is `b`, with or without a duration. */
  function UnpackInfo(b: bv8, duration: bool, hr: bv8, min: bv8): TimerInfo {
    var overlap, media, code := b >> 7, (b >> 5) & 3, b & 0xf;
    var space := code == PROG_INFO_NOT_ENOUGH_SPACE || code == PROG_INFO_MIGHT_NOT_BE_ENOUGH_SPACE;
    if b & 0x10 != 0 then
      var progInfo := if code == 0 || (space && !duration) then 0x10 | code else code;
      TimerInfo(overlap, media, progInfo, if duration && !space then PROG_ERROR_DUPLICATE else 0, hr, min)
    else if code == PROG_ERROR_DUPLICATE && !duration then TimerInfo(0, 0, 0, b, hr, min)
    else TimerInfo(overlap, media, 0, code, hr, min)
  }

  function CanonInfo(t: TimerInfo): TimerInfo {
    if HasDuration(t) then UnpackInfo(TimerInfoByte(t), true, Mod160(t.hr), Mod160(t.min))
    else UnpackInfo(TimerInfoByte(t), false, 0, 0)
  }

  function CanonUi(u: UiCommand): UiCommand {
    if u.hasArg && u.TakesByte() then UiCommand(u.cmd, true, u.first, 0, 0)
    else if u.hasArg && u.TakesChannel() then
      var (format, major) := CanonChannel(u.first, u.major);
      UiCommand(u.cmd, true, format, major, u.minor)
    else UiCommand(u.cmd, false, 0, 0, 0)
  }

  /** Addresses after the first invalid one are not sent. */
  function CanonAddrs(a3: bv16, a4: bv16, a5: bv16): (bv16, bv16, bv16) {
    if a3 == PHYS_ADDR_INVALID then (PHYS_ADDR_INVALID, PHYS_ADDR_INVALID, PHYS_ADDR_INVALID)
    else if a4 == PHYS_ADDR_INVALID then (a3, PHYS_ADDR_INVALID, PHYS_ADDR_INVALID)
    else (a3, a4, a5)
  }

  /** Four two-bit states; bits that overflow a field spill into the next one. */
  function CanonHec(hec: bv8, host: bv8, enc: bv8, err: bv8): (bv8, bv8, bv8, bv8) {
    ((hec | (host >> 2) | (enc >> 4) | (err >> 6)) & 3, (host | (enc >> 2) | (err >> 4)) & 3,
     (enc | (err >> 2)) & 3, err & 3)
  }

  function CanonCdc(c: CdcOp): CdcOp {
    match c
    case HecReportState(target, hec, host, enc, err, hasField, field) =>
      var (hec', host', enc', err') := CanonHec(hec, host, enc, err);
      HecReportState(target, hec', host', enc', err', hasField, if hasField then field else 0)
    case HecSetState(a1, a2, state, a3, a4, a5) =>
      var (c3, c4, c5) := CanonAddrs(a3, a4, a5);
      HecSetState(a1, a2, state, c3, c4, c5)
    case HpdSetState(port, hpd) => HpdSetState((port | (hpd >> 4)) & 0xf, hpd & 0xf)
    case HpdReportState(hpd, hpdError) => HpdReportState((hpd | (hpdError >> 4)) & 0xf, hpdError & 0xf)
    case _ => c
  }

  /** A message without a delay byte whose code reads as 3 was built from a
      compensation code other than 3 with the same low bits. */
  function CanonLatency(addr: bv16, video: bv8, lowLatency: bv8, compensated: bv8, delay: bv8): Op {
    var b := LatencyByte(lowLatency, compensated);
    if compensated == 3 then ReportLatency(addr, video, LatencyMode(b), 3, delay)
    else LatencyOf(addr, video, b)
  }

  function LatencyOf(addr: bv16, video: bv8, b: bv8): Op {
    if LatencyCode(b) == 3 then ReportLatency(addr, video, 0, b, 0)
    else ReportLatency(addr, video, LatencyMode(b), LatencyCode(b), 0)
  }

  /** Descriptors keep their low 24 bits. */
  function CanonDescriptors(ds: seq<bv32>): (r: seq<bv32>)
    ensures |r| == |ds|
  {
    if ds == [] then []
    else CanonDescriptors(ds[..|ds| - 1]) + [Low24(ds[|ds| - 1])]
  }

  function Low24(d: bv32): bv32 { d & 0xff_ffff }

  function Low2(b: bv8): bv8 { b & 3 }

  function Low6(b: bv8): bv8 { b & 0x3f }

  function MapBytes(s: seq<bv8>, f: bv8 -> bv8): (r: seq<bv8>)
    ensures |r| == |s|
  {
    seq(|s|, i requires 0 <= i < |s| => f(s[i]))
  }

  /** The canonical form of an effective call.  The `reply` argument is not on
      the wire, so the canonical form has it false. */
  function Canon(op: Op): Op
    requires Valid(op)
  {
    match op
    case Bare(opcode, _) => Bare(opcode, false)
    case OneByte(opcode, _, operand) => OneByte(opcode, false, operand)
    case Address(opcode, _, addr) => Address(opcode, false, addr)
    case RoutingChange(_, from, to) => RoutingChange(false, from, to)
    case RecordOn(_, src) => RecordOn(false, CanonRecordSrc(src))
    case TimerStatus(info) => TimerStatus(CanonInfo(info))
    case Timer(set_, _, slot, src) => Timer(set_, false, CanonSlot(slot), CanonTimerSrc(src))
    case Text(opcode, text) => Text(opcode, text[..Min(StrLen(text), 14)])
    case OsdString(ctl, text) => OsdString(ctl, text[..Min(StrLen(text), 13)])
    case Blob(opcode, size, data) => Blob(opcode, Min(size, 14), data[..Min(size, 14)])
    case VendorCommandWithId(vendor, size, data) =>
      VendorCommandWithId(Low24(vendor), Min(size, 11), data[..Min(size, 11)])
    case SetMenuLanguage(language) => SetMenuLanguage(language[..3])
    case TunerStatus(recFlag, display, service) =>
      TunerStatus(CanonFlag(recFlag, display), FlagLow(display), CanonService(service))
    case SelectService(service) => SelectService(CanonService(service))
    case DeviceVendorId(vendor) => DeviceVendorId(Low24(vendor))
    case UserControl(ui) => UserControl(CanonUi(ui))
    case AudioStatus(mute, volume) => AudioStatus(CanonFlag(mute, FlagLow(volume)), FlagLow(volume))
    case SystemAudioRequest(_, addr) => SystemAudioRequest(false, addr)
    case ReportDescriptors(num, ds) => ReportDescriptors(Min(num, 4), CanonDescriptors(ds[..Min(num, 4)]))
    case RequestDescriptors(_, num, ids, codes) =>
      RequestDescriptors(false, Min(num, 4), MapBytes(ids[..Min(num, 4)], Low2), MapBytes(codes[..Min(num, 4)], Low6))
    case ReportLatency(addr, video, lowLatency, compensated, delay) =>
      CanonLatency(addr, video, lowLatency, compensated, delay)
    case Cdc(cdc) => Cdc(CanonCdc(cdc))
    case _ => op
  }

  // ---------- The reference reader ----------

  /** Byte `i` of a buffer, 0 behind its end. */
  function At(b: seq<bv8>, i: nat): bv8 { if i < |b| then b[i] else 0 }

  function WordAt(b: seq<bv8>, i: nat): bv16 { Word(At(b, i), At(b, i + 1)) }

  function TripleAt(b: seq<bv8>, i: nat): bv32 { Triple(At(b, i), At(b, i + 1), At(b, i + 2)) }

  function ReadAnalogue(b: seq<bv8>, i: nat): Analogue {
    Analogue(At(b, i), WordAt(b, i + 1), At(b, i + 3))
  }

  /** The call whose head byte and words are the given ones. */
  function DigitalOf(head: bv8, w0: bv16, w1: bv16, w2: bv16): Digital {
    if head >= 0x80 && w2 == 0 then Digital(1, head & 0x7f, ChannelFormat(w0) as bv16, ChannelMajor(w0), w1)
    else Digital(0, head, w0, w1, w2)
  }

  function ReadDigital(b: seq<bv8>, i: nat): Digital {
    DigitalOf(At(b, i), WordAt(b, i + 1), WordAt(b, i + 3), WordAt(b, i + 5))
  }

  function ReadSlot(b: seq<bv8>): TimerSlot {
    TimerSlot(At(b, 2), At(b, 3), UnBcd(At(b, 4)), UnBcd(At(b, 5)), UnBcd(At(b, 6)), UnBcd(At(b, 7)), At(b, 8))
  }

  function ReadTimerSrc(opcode: bv8, b: seq<bv8>): TimerSrc {
    if opcode == MSG_SET_ANALOGUE_TIMER || opcode == MSG_CLEAR_ANALOGUE_TIMER then AnalogueTimer(ReadAnalogue(b, 9))
    else if opcode == MSG_SET_DIGITAL_TIMER || opcode == MSG_CLEAR_DIGITAL_TIMER then DigitalTimer(ReadDigital(b, 9))
    else ExtTimer(At(b, 9), At(b, 10), WordAt(b, 11))
  }

  function ReadRecordSrc(b: seq<bv8>): RecordSrc {
    var tag := At(b, 2);
    if tag == RECORD_SRC_OWN then Own
    else if tag == RECORD_SRC_DIGITAL then DigitalSrc(ReadDigital(b, 3))
    else if tag == RECORD_SRC_ANALOG then AnalogueSrc(ReadAnalogue(b, 3))
    else if tag == RECORD_SRC_EXT_PLUG then Plug(At(b, 3))
    else if tag == RECORD_SRC_EXT_PHYS_ADDR then ExtAddress(WordAt(b, 3))
    else UnknownSrc(tag)
  }

  function ReadUi(b: seq<bv8>, len: nat): UiCommand {
    var cmd := At(b, 2);
    if len <= 3 then UiCommand(cmd, false, 0, 0, 0)
    else if cmd == 0x67 then UiCommand(cmd, true, ChannelFormat(WordAt(b, 3)), ChannelMajor(WordAt(b, 3)), WordAt(b, 5))
    else UiCommand(cmd, true, At(b, 3), 0, 0)
  }

  function ReadDescriptors(b: seq<bv8>, n: nat): (r: seq<bv32>)
    ensures |r| == n
  {
    if n == 0 then [] else ReadDescriptors(b, n - 1) + [TripleAt(b, 3 * n - 1)]
  }

  function High2(b: bv8): bv8 { b >> 6 }

  function HecStates(s: bv8): (bv8, bv8, bv8, bv8) { (s >> 6, (s >> 4) & 3, (s >> 2) & 3, s & 3) }

  function ReadCdc(b: seq<bv8>, len: nat): CdcOp {
    var sub := At(b, 4);
    if sub == CDC_HEC_INQUIRE_STATE then
      // hec_set_state uses the same sub-opcode; only the length tells it apart
      if len < 10 then HecInquireState(WordAt(b, 5), WordAt(b, 7))
      else HecSetState(WordAt(b, 5), WordAt(b, 7), At(b, 9),
                       if len >= 12 then WordAt(b, 10) else PHYS_ADDR_INVALID,
                       if len >= 14 then WordAt(b, 12) else PHYS_ADDR_INVALID,
                       if len >= 16 then WordAt(b, 14) else PHYS_ADDR_INVALID)
    else if sub == CDC_HEC_REPORT_STATE then
      var (hec, host, enc, err) := HecStates(At(b, 7));
      HecReportState(WordAt(b, 5), hec, host, enc, err, len >= 10, if len >= 10 then WordAt(b, 8) else 0)
    else if sub == CDC_HEC_SET_STATE_ADJACENT then HecSetStateAdjacent(WordAt(b, 5), At(b, 7))
    else if sub == CDC_HEC_REQUEST_DEACTIVATION then HecRequestDeactivation(WordAt(b, 5), WordAt(b, 7), WordAt(b, 9))
    else if sub == CDC_HEC_NOTIFY_ALIVE then HecNotifyAlive
    else if sub == CDC_HEC_DISCOVER then HecDiscover
    else if sub == CDC_HPD_SET_STATE then HpdSetState(At(b, 5) >> 4, At(b, 5) & 0xf)
    else HpdReportState(At(b, 5) >> 4, At(b, 5) & 0xf)
  }

  /** The builder families, one per constructor of `Op`. */
  datatype Family =
    | FBare | FOneByte | FAddress | FRoutingChange | FRecordOn | FTimerStatus | FTimer | FText | FOsdString
    | FBlob | FVendorCommandWithId | FReportPhysicalAddr | FSetMenuLanguage | FReportFeatures | FTunerStatus
    | FSelectService | FDeviceVendorId | FUserControl | FFeatureAbort | FAudioStatus | FSystemAudioRequest
    | FReportDescriptors | FRequestDescriptors | FReportLatency | FCdc | FUnknown

  predicate IsTimer(b: bv8) {
    b == MSG_CLEAR_ANALOGUE_TIMER || b == MSG_CLEAR_DIGITAL_TIMER || b == MSG_CLEAR_EXT_TIMER || IsSetTimer(b)
  }

  predicate IsSetTimer(b: bv8) {
    b == MSG_SET_ANALOGUE_TIMER || b == MSG_SET_DIGITAL_TIMER || b == MSG_SET_EXT_TIMER
  }

  function FamilyOf(b: bv8): Family {
    if IsBare(b) then FBare
    else if IsOneByte(b) then FOneByte
    else if IsAddress(b) then FAddress
    else if IsTimer(b) then FTimer
    else if IsText(b) then FText
    else if IsBlob(b) then FBlob
    else if b == MSG_ROUTING_CHANGE then FRoutingChange
    else if b == MSG_RECORD_ON then FRecordOn
    else if b == MSG_TIMER_STATUS then FTimerStatus
    else if b == MSG_SET_OSD_STRING then FOsdString
    else if b == MSG_VENDOR_COMMAND_WITH_ID then FVendorCommandWithId
    else if b == MSG_REPORT_PHYSICAL_ADDR then FReportPhysicalAddr
    else if b == MSG_SET_MENU_LANGUAGE then FSetMenuLanguage
    else if b == MSG_REPORT_FEATURES then FReportFeatures
    else if b == MSG_TUNER_DEVICE_STATUS then FTunerStatus
    else if b == MSG_SELECT_ANALOGUE_SERVICE || b == MSG_SELECT_DIGITAL_SERVICE then FSelectService
    else if b == MSG_DEVICE_VENDOR_ID then FDeviceVendorId
    else if b == MSG_USER_CONTROL_PRESSED then FUserControl
    else if b == MSG_FEATURE_ABORT then FFeatureAbort
    else if b == MSG_REPORT_AUDIO_STATUS then FAudioStatus
    else if b == MSG_SYSTEM_AUDIO_MODE_REQUEST then FSystemAudioRequest
    else if b == MSG_REPORT_SHORT_AUDIO_DESCRIPTOR then FReportDescriptors
    else if b == MSG_REQUEST_SHORT_AUDIO_DESCRIPTOR then FRequestDescriptors
    else if b == MSG_REPORT_CURRENT_LATENCY then FReportLatency
    else if b == MSG_CDC_MESSAGE then FCdc
    else FUnknown
  }

  function ReadInfo(b: seq<bv8>, len: nat): TimerInfo {
    if len >= 5 then UnpackInfo(At(b, 2), true, UnBcd(At(b, 3)), UnBcd(At(b, 4)))
    else UnpackInfo(At(b, 2), false, 0, 0)
  }

  function ReadTunerService(b: seq<bv8>, len: nat): Service {
    if len < 10 then AnalogueService(ReadAnalogue(b, 3)) else DigitalService(ReadDigital(b, 3))
  }

  function ReadLatency(b: seq<bv8>, len: nat): Op {
    if len >= 7 then ReportLatency(WordAt(b, 2), At(b, 4), LatencyMode(At(b, 5)), 3, At(b, 6))
    else LatencyOf(WordAt(b, 2), At(b, 4), At(b, 5))
  }

  function Slice(b: seq<bv8>, lo: nat, hi: nat): seq<bv8> { if lo <= hi <= |b| then b[lo..hi] else [] }

  /** The message in the first `len` bytes of `b`, read as one of family `f`. */
  function ReadAs(f: Family, b: seq<bv8>, len: nat): Option<Op>
    requires 2 <= len <= |b|
  {
    var opcode := b[1];
    match f
    case FBare => Some(Bare(opcode, false))
    case FOneByte => Some(OneByte(opcode, false, At(b, 2)))
    case FAddress => Some(Address(opcode, false, WordAt(b, 2)))
    case FTimer => Some(Timer(IsSetTimer(opcode), false, ReadSlot(b), ReadTimerSrc(opcode, b)))
    case FText => Some(Text(opcode, b[2..len]))
    case FBlob => Some(Blob(opcode, Min(len - 2, 14), Slice(b, 2, len)))
    case FRoutingChange => Some(RoutingChange(false, WordAt(b, 2), WordAt(b, 4)))
    case FRecordOn => Some(RecordOn(false, ReadRecordSrc(b)))
    case FTimerStatus => Some(TimerStatus(ReadInfo(b, len)))
    case FOsdString => Some(OsdString(At(b, 2), Slice(b, 3, len)))
    case FVendorCommandWithId =>
      if len < 5 then None else Some(VendorCommandWithId(TripleAt(b, 2), Min(len - 5, 11), b[5..len]))
    case FReportPhysicalAddr => Some(ReportPhysicalAddr(WordAt(b, 2), At(b, 4)))
    case FSetMenuLanguage => Some(SetMenuLanguage(Slice(b, 2, 5)))
    case FReportFeatures => Some(ReportFeatures(At(b, 2), At(b, 3), At(b, 4), At(b, 5)))
    case FTunerStatus => Some(TunerStatus(FlagHigh(At(b, 2)), FlagLow(At(b, 2)), ReadTunerService(b, len)))
    case FSelectService =>
      Some(SelectService(if opcode == MSG_SELECT_ANALOGUE_SERVICE then AnalogueService(ReadAnalogue(b, 2))
                         else DigitalService(ReadDigital(b, 2))))
    case FDeviceVendorId => Some(DeviceVendorId(TripleAt(b, 2)))
    case FUserControl => Some(UserControl(ReadUi(b, len)))
    case FFeatureAbort => Some(FeatureAbort(At(b, 2), At(b, 3)))
    case FAudioStatus => Some(AudioStatus(FlagHigh(At(b, 2)), FlagLow(At(b, 2))))
    case FSystemAudioRequest => Some(SystemAudioRequest(false, if len < 4 then 0xffff else WordAt(b, 2)))
    case FReportDescriptors =>
      var n := Min((len - 2) / 3, 4);
      Some(ReportDescriptors(n, ReadDescriptors(b, n)))
    case FRequestDescriptors =>
      var n := Min(len - 2, 4);
      Some(RequestDescriptors(false, n, MapBytes(b[2..2 + n], High2), MapBytes(b[2..2 + n], Low6)))
    case FReportLatency => Some(ReadLatency(b, len))
    case FCdc => Some(Cdc(ReadCdc(b, len)))
    case FUnknown => None
  }

  /** The call that produced the first `len` bytes of `b`. */
  function Read(b: seq<bv8>, len: nat): Option<Op>
    requires len <= |b|
  {
    if len < 2 then None else ReadAs(FamilyOf(b[1]), b, len)
  }
}
