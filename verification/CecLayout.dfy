/** The frame of every call by byte number, as chapter CEC 17 of the standard lays
the operands out: places and opcodes are numerals, and packed bytes are sums of
products instead of shifts.  This is an independent description of what `CecWire`
and the builders compute by shifting and masking; nothing in it refers to the
byte functions of `CecBytes` and `CecWire`. */
module CecLayout {
  import opened CecBytes
  import opened CecOps
  import opened CecWire
  import opened CecEffects
  import opened CecTables

  // ---------- Numbers in a frame ----------

  function Num16(b: Buffer, i: nat): bv16
    requires i + 2 <= 16
  {
    b[i] as bv16 * 0x100 + b[i + 1] as bv16
  }

  function Num24(b: Buffer, i: nat): bv32
    requires i + 3 <= 16
  {
    b[i] as bv32 * 0x1_0000 + b[i + 1] as bv32 * 0x100 + b[i + 2] as bv32
  }

  /** What three bytes hold of a number. */
  function Mod24(x: bv32): bv32 { x % 0x100_0000 }

  /** Two digits, one in each nibble; above 99 the high nibble is no decimal digit. */
  predicate TwoDigits(b: bv8, v: bv8) { v < 160 ==> b / 16 == v / 10 && b % 16 == v % 10 }

  lemma WordNumber(x: bv16)
    ensures Hi(x) as bv16 * 0x100 + Lo(x) as bv16 == x
  {
  }

  lemma TripleNumber(x: bv32)
    ensures Byte2(x) as bv32 * 0x1_0000 + Byte1(x) as bv32 * 0x100 + Byte0(x) as bv32 == Mod24(x)
  {
  }

  lemma BcdNumber(v: bv8)
    ensures TwoDigits(Bcd(v), v)
  {
  }

  lemma FlagNumber(flag: bv8, low: bv8)
    ensures flag < 2 && low < 128 ==> FlagByte(flag, low) == flag * 128 + low
    ensures FlagLow(low) == low % 128
  {
  }

  lemma ChannelNumber(format: bv8, major: bv16)
    requires format < 64 && major < 1024
    ensures ChannelHigh(format, major) as bv16 * 0x100 + Lo(major) as bv16 == format as bv16 * 1024 + major
  {
  }

  lemma LowByte(w: bv16)
    ensures Lo(w) as bv16 == w % 256
  {
  }

  lemma LatencyNumber(low: bv8, comp: bv8)
    ensures low < 64 && comp < 4 ==> LatencyByte(low, comp) == low * 4 + comp
  {
  }

  lemma NibbleNumber(hi: bv8, lo: bv8)
    ensures hi < 16 && lo < 16 ==> NibbleByte(hi, lo) == hi * 16 + lo
  {
  }

  predicate FourStates(b: bv8, hec: bv8, host: bv8, enc: bv8, err: bv8) {
    hec < 4 && host < 4 && enc < 4 && err < 4 ==> b == hec * 64 + host * 16 + enc * 4 + err
  }

  lemma StatesNumber(hec: bv8, host: bv8, enc: bv8, err: bv8)
    ensures FourStates(HecStateByte(hec, host, enc, err), hec, host, enc, err)
  {
  }

  lemma FormatNumber(id: bv8, code: bv8)
    ensures FormatByte(id, code) == id % 4 * 64 + code % 64
  {
  }

  lemma InfoNumber(t: TimerInfo)
    ensures t.overlap < 2 && t.media < 4 && t.progInfo < 16 && t.progError < 16 ==>
              TimerInfoByte(t) ==
              t.overlap * 128 + t.media * 32 + if t.progInfo != 0 then 16 + t.progInfo else t.progError
  {
  }

  // ---------- Services ----------

  /** A digital service id in seven bytes: the method above a seven-bit system,
      then either format, major and minor number, or the three numbers of the
      broadcast system, of which the ATSC systems have only two. */
  predicate DigitalAt(b: Buffer, i: nat, d: Digital)
    requires i + 7 <= 16
  {
    && (d.idMethod < 2 && d.system < 128 ==> b[i] == d.idMethod * 128 + d.system)
    && if d.idMethod == 1 then
         && (d.w0 % 256 < 64 && d.w1 < 1024 ==> Num16(b, i + 1) == d.w0 % 256 * 1024 + d.w1)
         && Num16(b, i + 3) == d.w2 && Num16(b, i + 5) == 0
       else
         && Num16(b, i + 1) == d.w0 && Num16(b, i + 3) == d.w1
         && Num16(b, i + 5) == if d.system in {0x01, 0x10, 0x11, 0x12} then 0 else d.w2
  }

  predicate AnalogueAt(b: Buffer, i: nat, a: Analogue)
    requires i + 4 <= 16
  {
    b[i] == a.bcastType && Num16(b, i + 1) == a.freq && b[i + 3] == a.system
  }

  predicate ServiceAt(b: Buffer, i: nat, s: Service)
    requires i + 7 <= 16
  {
    match s
    case AnalogueService(a) => AnalogueAt(b, i, a)
    case DigitalService(d) => DigitalAt(b, i, d)
  }

  lemma WordIn(b: Buffer, i: nat, w: bv16)
    requires i + 2 <= 16 && b[i] == Hi(w) && b[i + 1] == Lo(w)
    ensures Num16(b, i) == w
  {
    WordNumber(w);
  }

  lemma ZeroIn(b: Buffer, i: nat)
    requires i + 2 <= 16 && b[i] == 0 && b[i + 1] == 0
    ensures Num16(b, i) == 0
  {
  }

  lemma TripleIn(b: Buffer, i: nat, x: bv32)
    requires i + 3 <= 16 && b[i] == Byte2(x) && b[i + 1] == Byte1(x) && b[i + 2] == Byte0(x)
    ensures Num24(b, i) == Mod24(x)
  {
    TripleNumber(x);
  }

  lemma ChannelIn(b: Buffer, i: nat, format: bv8, major: bv16)
    requires i + 2 <= 16 && b[i] == ChannelHigh(format, major) && b[i + 1] == Lo(major)
    ensures format < 64 && major < 1024 ==> Num16(b, i) == format as bv16 * 1024 + major
  {
    if format < 64 && major < 1024 { ChannelNumber(format, major); }
  }

  lemma DigitalChannelIn(b: Buffer, i: nat, d: Digital)
    requires i + 2 <= 16 && b[i] == ChannelHigh(d.Format(), d.w1) && b[i + 1] == Lo(d.w1)
    ensures d.w0 % 256 < 64 && d.w1 < 1024 ==> Num16(b, i) == d.w0 % 256 * 1024 + d.w1
  {
    hide Num16, ChannelHigh;
    LowByte(d.w0);
    ChannelIn(b, i, d.Format(), d.w1);
  }

  lemma DigitalHeadNumber(d: Digital)
    ensures d.idMethod < 2 && d.system < 128 ==> DigitalHead(d) == d.idMethod * 128 + d.system
  {
    FlagNumber(d.idMethod, d.system);
  }

  predicate BytesAt(b: Buffer, i: nat, s: seq<bv8>) { i + |s| <= 16 && b[i..i + |s|] == s }

  /** Wherever the seven bytes stand, they are a service id. */
  lemma DigitalLaid(b: Buffer, i: nat, d: Digital)
    requires BytesAt(b, i, DigitalBytes(d))
    ensures DigitalAt(b, i, d)
  {
    hide *;
    var s := SevenBytes(b, i, d);
    BytesOneByOne(d);
    if d.ByChannel() {
      LaidChannel(b, i, d);
    } else if d.Atsc() {
      LaidAtsc(b, i, d);
    } else {
      LaidOther(b, i, d);
    }
  }

  lemma BytesOneByOne(d: Digital)
    ensures var s := DigitalBytes(d);
            s[0] == DigitalHead(d) &&
            if d.ByChannel() then
              s[1] == ChannelHigh(d.Format(), d.w1) && s[2] == Lo(d.w1) && s[3] == Hi(d.w2) && s[4] == Lo(d.w2)
              && s[5] == 0 && s[6] == 0
            else
              s[1] == Hi(d.w0) && s[2] == Lo(d.w0) && s[3] == Hi(d.w1) && s[4] == Lo(d.w1)
              && s[5] == (if d.Atsc() then 0 else Hi(d.w2)) && s[6] == if d.Atsc() then 0 else Lo(d.w2)
  {
    hide DigitalBytes, DigitalHead, ChannelHigh, Hi, Lo, Digital.Format, Digital.ByChannel, Digital.Atsc;
    DigitalBytesAre(d);
  }

  lemma SevenBytes(b: Buffer, i: nat, d: Digital) returns (s: seq<bv8>)
    requires BytesAt(b, i, DigitalBytes(d))
    ensures i + 7 <= 16 && s == DigitalBytes(d)
    ensures b[i] == s[0] && b[i + 1] == s[1] && b[i + 2] == s[2] && b[i + 3] == s[3]
         && b[i + 4] == s[4] && b[i + 5] == s[5] && b[i + 6] == s[6]
  {
    hide DigitalBytes;
    s := b[i..i + 7];
  }

  lemma LaidChannel(b: Buffer, i: nat, d: Digital)
    requires i + 7 <= 16 && d.ByChannel() && b[i] == DigitalHead(d)
    requires b[i + 1] == ChannelHigh(d.Format(), d.w1) && b[i + 2] == Lo(d.w1)
    requires b[i + 3] == Hi(d.w2) && b[i + 4] == Lo(d.w2) && b[i + 5] == 0 && b[i + 6] == 0
    ensures DigitalAt(b, i, d)
  {
    hide Hi, Lo, ChannelHigh, DigitalHead, Num16;
    DigitalHeadNumber(d);
    DigitalChannelIn(b, i + 1, d);
    WordIn(b, i + 3, d.w2);
    ZeroIn(b, i + 5);
  }

  lemma LaidAtsc(b: Buffer, i: nat, d: Digital)
    requires i + 7 <= 16 && !d.ByChannel() && d.Atsc() && b[i] == DigitalHead(d)
    requires b[i + 1] == Hi(d.w0) && b[i + 2] == Lo(d.w0) && b[i + 3] == Hi(d.w1) && b[i + 4] == Lo(d.w1)
    requires b[i + 5] == 0 && b[i + 6] == 0
    ensures DigitalAt(b, i, d)
  {
    hide Hi, Lo, DigitalHead, Num16;
    DigitalHeadNumber(d);
    WordIn(b, i + 1, d.w0);
    WordIn(b, i + 3, d.w1);
    ZeroIn(b, i + 5);
  }

  lemma LaidOther(b: Buffer, i: nat, d: Digital)
    requires i + 7 <= 16 && !d.ByChannel() && !d.Atsc() && b[i] == DigitalHead(d)
    requires b[i + 1] == Hi(d.w0) && b[i + 2] == Lo(d.w0) && b[i + 3] == Hi(d.w1) && b[i + 4] == Lo(d.w1)
    requires b[i + 5] == Hi(d.w2) && b[i + 6] == Lo(d.w2)
    ensures DigitalAt(b, i, d)
  {
    hide Hi, Lo, DigitalHead, Num16;
    DigitalHeadNumber(d);
    WordIn(b, i + 1, d.w0);
    WordIn(b, i + 3, d.w1);
    WordIn(b, i + 5, d.w2);
  }

  lemma AnalogueLaid(b: Buffer, i: nat, x: Analogue)
    requires BytesAt(b, i, AnalogueBytes(x))
    ensures AnalogueAt(b, i, x)
  {
    hide Hi, Lo, Num16;
    var s := b[i..i + 4];
    assert s[0] == b[i] && s[1] == b[i + 1] && s[2] == b[i + 2] && s[3] == b[i + 3];
    WordIn(b, i + 1, x.freq);
  }


  lemma ServiceLaid(b: Buffer, i: nat, s: Service)
    requires i + 7 <= 16 && BytesAt(b, i, ServiceBytes(s))
    ensures ServiceAt(b, i, s)
  {
    hide DigitalAt, AnalogueAt, DigitalBytes, AnalogueBytes;
    match s
    case AnalogueService(a) => AnalogueLaid(b, i, a);
    case DigitalService(d) => DigitalLaid(b, i, d);
  }

  // ---------- The frames ----------

  function AtMost(n: nat, cap: nat): (r: nat)
    ensures r <= n
  {
    if n > cap then cap else n
  }

  predicate RecordFrame(a: Msg, src: RecordSrc) {
    match src
    case Own => a.len == 3 && a.buf[2] == 1
    case DigitalSrc(d) => a.len == 10 && a.buf[2] == 2 && DigitalAt(a.buf, 3, d)
    case AnalogueSrc(x) => a.len == 7 && a.buf[2] == 3 && AnalogueAt(a.buf, 3, x)
    case Plug(plug) => a.len == 4 && a.buf[2] == 4 && a.buf[3] == plug
    case ExtAddress(addr) => a.len == 5 && a.buf[2] == 5 && Num16(a.buf, 3) == addr
    case UnknownSrc(_) => false
  }

  predicate InfoFrame(a: Msg, t: TimerInfo) {
    var duration := t.progInfo == 0x9 || t.progInfo == 0xb || t.progError == 0xe;
    && a.len == (if duration then 5 else 3)
    && (t.overlap < 2 && t.media < 4 && t.progInfo < 16 && t.progError < 16 ==>
          a.buf[2] == t.overlap * 128 + t.media * 32 + if t.progInfo != 0 then 16 + t.progInfo else t.progError)
    && (duration ==> TwoDigits(a.buf[3], t.hr) && TwoDigits(a.buf[4], t.min))
  }

  predicate SlotAt(b: Buffer, t: TimerSlot) {
    && b[2] == t.day && b[3] == t.month
    && TwoDigits(b[4], t.startHr) && TwoDigits(b[5], t.startMin)
    && TwoDigits(b[6], t.durHr) && TwoDigits(b[7], t.durMin)
    && b[8] == t.recSeq
  }

  predicate TimerFrame(a: Msg, t: TimerSlot, src: TimerSrc) {
    SlotAt(a.buf, t) &&
    match src
    case AnalogueTimer(x) => a.len == 13 && AnalogueAt(a.buf, 9, x)
    case DigitalTimer(d) => a.len == 16 && DigitalAt(a.buf, 9, d)
    case ExtTimer(spec, plug, addr) => a.len == 13 && a.buf[9] == spec && a.buf[10] == plug && Num16(a.buf, 11) == addr
  }

  /** Six commands take a byte, tuning takes a channel, all others nothing. */
  predicate UiFrame(a: Msg, u: UiCommand) {
    a.buf[2] == u.cmd &&
    if u.hasArg && u.cmd in {0x56, 0x57, 0x60, 0x68, 0x69, 0x6a} then a.len == 4 && a.buf[3] == u.first
    else if u.hasArg && u.cmd == 0x67 then
      a.len == 7 && Num16(a.buf, 5) == u.minor
      && (u.first < 64 && u.major < 1024 ==> Num16(a.buf, 3) == u.first as bv16 * 1024 + u.major)
    else a.len == 3
  }

  predicate SetStateFrame(a: Msg, c: CdcOp)
    requires c.HecSetState?
  {
    && a.buf[4] == 0x00 && Num16(a.buf, 5) == c.addr1 && Num16(a.buf, 7) == c.addr2 && a.buf[9] == c.state
    && if c.addr3 == 0xffff then a.len == 10
       else Num16(a.buf, 10) == c.addr3 &&
            if c.addr4 == 0xffff then a.len == 12
            else Num16(a.buf, 12) == c.addr4 &&
                 if c.addr5 == 0xffff then a.len == 14
                 else Num16(a.buf, 14) == c.addr5 && a.len == 16
  }

  predicate CdcFrame(a: Msg, c: CdcOp) {
    match c
    case HecInquireState(a1, a2) =>
      a.len == 9 && a.buf[4] == 0x00 && Num16(a.buf, 5) == a1 && Num16(a.buf, 7) == a2
    case HecReportState(target, hec, host, enc, err, hasField, field) =>
      && a.len == (if hasField then 10 else 8) && a.buf[4] == 0x01 && Num16(a.buf, 5) == target
      && FourStates(a.buf[7], hec, host, enc, err)
      && (hasField ==> Num16(a.buf, 8) == field)
    case HecSetState(_, _, _, _, _, _) => SetStateFrame(a, c)
    case HecSetStateAdjacent(a1, state) =>
      a.len == 8 && a.buf[4] == 0x02 && Num16(a.buf, 5) == a1 && a.buf[7] == state
    case HecRequestDeactivation(a1, a2, a3) =>
      a.len == 11 && a.buf[4] == 0x04 && Num16(a.buf, 5) == a1 && Num16(a.buf, 7) == a2 && Num16(a.buf, 9) == a3
    case HecNotifyAlive => a.len == 5 && a.buf[4] == 0x05
    case HecDiscover => a.len == 5 && a.buf[4] == 0x06
    case HpdSetState(port, hpd) =>
      a.len == 6 && a.buf[4] == 0x10 && (port < 16 && hpd < 16 ==> a.buf[5] == port * 16 + hpd)
    case HpdReportState(hpd, hpdError) =>
      a.len == 6 && a.buf[4] == 0x11 && (hpd < 16 && hpdError < 16 ==> a.buf[5] == hpd * 16 + hpdError)
  }

  predicate DescriptorsFrame(a: Msg, num: nat, ds: seq<bv32>)
    requires AtMost(num, 4) <= |ds|
  {
    var n := AtMost(num, 4);
    a.len == 2 + 3 * n && forall i | 0 <= i < n :: Num24(a.buf, 2 + 3 * i) == Mod24(ds[i])
  }

  predicate FormatsFrame(a: Msg, num: nat, ids: seq<bv8>, codes: seq<bv8>)
    requires AtMost(num, 4) <= |ids| && AtMost(num, 4) <= |codes|
  {
    var n := AtMost(num, 4);
    a.len == 2 + n && forall i | 0 <= i < n :: a.buf[2 + i] == ids[i] % 4 * 64 + codes[i] % 64
  }

  predicate LatencyFrame(a: Msg, addr: bv16, video: bv8, low: bv8, comp: bv8, delay: bv8) {
    && Num16(a.buf, 2) == addr && a.buf[4] == video
    && (low < 64 && comp < 4 ==> a.buf[5] == low * 4 + comp)
    && if comp == 3 then a.len == 7 && a.buf[6] == delay else a.len == 6
  }

  /** `a` ends in `s` from byte `i` on. */
  predicate EndsWith(a: Msg, i: nat, s: seq<bv8>) { a.len == i + |s| <= 16 && a.buf[i..a.len] == s }

  predicate TunerFrame(a: Msg, recFlag: bv8, display: bv8, service: Service) {
    && a.len == (if service.AnalogueService? then 7 else 10) && ServiceAt(a.buf, 3, service)
    && (recFlag < 2 && display < 128 ==> a.buf[2] == recFlag * 128 + display)
  }

  /** The operands of `op` as they stand in the message `a`. */
  predicate Frame(a: Msg, op: Op)
    requires Valid(op)
  {
    match op
    case Bare(_, _) => a.len == 2
    case OneByte(_, _, operand) => a.len == 3 && a.buf[2] == operand
    case Address(_, _, addr) => a.len == 4 && Num16(a.buf, 2) == addr
    case RoutingChange(_, from, to) => a.len == 6 && Num16(a.buf, 2) == from && Num16(a.buf, 4) == to
    case RecordOn(_, src) => RecordFrame(a, src)
    case TimerStatus(info) => InfoFrame(a, info)
    case Timer(_, _, slot, src) => TimerFrame(a, slot, src)
    case Text(_, text) => EndsWith(a, 2, text[..AtMost(|text| % 0x1_0000_0000, 14)])
    case OsdString(ctl, text) => a.buf[2] == ctl && EndsWith(a, 3, text[..AtMost(|text| % 0x1_0000_0000, 13)])
    case Blob(_, size, data) => EndsWith(a, 2, data[..AtMost(size, 14)])
    case VendorCommandWithId(vendor, size, data) =>
      Num24(a.buf, 2) == Mod24(vendor) && EndsWith(a, 5, data[..AtMost(size, 11)])
    case ReportPhysicalAddr(addr, devType) => a.len == 5 && Num16(a.buf, 2) == addr && a.buf[4] == devType
    case SetMenuLanguage(language) => EndsWith(a, 2, language[..3])
    case ReportFeatures(version, devTypes, rcProfile, devFeatures) =>
      EndsWith(a, 2, [version, devTypes, rcProfile, devFeatures])
    case TunerStatus(recFlag, display, service) => TunerFrame(a, recFlag, display, service)
    case SelectService(service) => a.len == (if service.AnalogueService? then 6 else 9) && ServiceAt(a.buf, 2, service)
    case DeviceVendorId(vendor) => a.len == 5 && Num24(a.buf, 2) == Mod24(vendor)
    case UserControl(ui) => UiFrame(a, ui)
    case FeatureAbort(aborted, reason) => EndsWith(a, 2, [aborted, reason])
    case AudioStatus(mute, volume) => a.len == 3 && (mute < 2 ==> a.buf[2] == mute * 128 + volume % 128)
    case SystemAudioRequest(_, addr) => a.len == (if addr == 0xffff then 2 else 4) && Num16(a.buf, 2) == addr
    case ReportDescriptors(num, ds) => DescriptorsFrame(a, num, ds)
    case RequestDescriptors(_, num, ids, codes) => FormatsFrame(a, num, ids, codes)
    case ReportLatency(addr, video, low, comp, delay) => LatencyFrame(a, addr, video, low, comp, delay)
    case Cdc(c) => CdcFrame(a, c)
  }

  lemma FrameFixed(m: Msg, op: Op)
    requires Valid(op) && (op.Bare? || op.OneByte? || op.Address?)
    ensures Frame(Apply(m, op), op)
  {
    hide Apply, Hi, Lo, Num16, AsBroadcast, ReplyOpcode, IsBroadcast, IsBare, IsOneByte, IsAddress, ReplyFrom;
    match op
    case Bare(opcode, reply) => BareEffect(m, opcode, reply);
    case OneByte(opcode, reply, operand) => OneByteEffect(m, opcode, reply, operand);
    case Address(opcode, reply, addr) =>
      AddressEffect(m, opcode, reply, addr);
      WordIn(Apply(m, op).buf, 2, addr);
  }

  lemma FrameRouting(m: Msg, op: Op)
    requires op.RoutingChange? || op.ReportPhysicalAddr?
    ensures Frame(Apply(m, op), op)
  {
    hide Apply, Hi, Lo, Num16, AsBroadcast;
    var b := Apply(m, op).buf;
    match op
    case RoutingChange(reply, from, to) =>
      RoutingChangeEffect(m, reply, from, to);
      WordIn(b, 2, from);
      WordIn(b, 4, to);
    case ReportPhysicalAddr(addr, devType) =>
      ReportPhysicalAddrEffect(m, addr, devType);
      WordIn(b, 2, addr);
  }

  lemma PutHolds(b: Buffer, i: nat, s: seq<bv8>)
    requires i + |s| <= 16
    ensures BytesAt(Put(b, i, s), i, s)
    ensures forall k | 0 <= k < i :: Put(b, i, s)[k] == b[k]
  {
  }

  lemma FrameRecordOn(m: Msg, reply: bool, src: RecordSrc)
    requires !src.UnknownSrc?
    ensures RecordFrame(Apply(m, RecordOn(reply, src)), src)
  {
    hide Apply, Hi, Lo, Num16, Put, DigitalBytes, AnalogueBytes, BytesAt, DigitalAt, AnalogueAt, RecordArm;
    RecordOnArms(m, reply, src);
    var b := RecordArm(m, src).buf;
    match src
    case Own => RecordOwnEffect(m);
    case DigitalSrc(d) =>
      RecordDigitalEffect(m, d);
      PutHolds(m.buf[1 := MSG_RECORD_ON][2 := RECORD_SRC_DIGITAL], 3, DigitalBytes(d));
      DigitalLaid(b, 3, d);
    case AnalogueSrc(x) =>
      RecordAnalogueEffect(m, x);
      PutHolds(m.buf[1 := MSG_RECORD_ON][2 := RECORD_SRC_ANALOG], 3, AnalogueBytes(x));
      AnalogueLaid(b, 3, x);
    case Plug(plug) => RecordPlugEffect(m, plug);
    case ExtAddress(addr) =>
      RecordExtAddressEffect(m, addr);
      WordIn(b, 3, addr);
  }

  lemma FrameTimerStatus(m: Msg, t: TimerInfo)
    ensures InfoFrame(Apply(m, TimerStatus(t)), t)
  {
    hide Apply, TimerInfoByte, Bcd, TwoDigits, HasDuration;
    TimerStatusEffect(m, t);
    InfoNumber(t);
    BcdNumber(t.hr);
    BcdNumber(t.min);
    DurationNumber(t);
  }

  lemma DurationNumber(t: TimerInfo)
    ensures HasDuration(t) <==> t.progInfo == 0x9 || t.progInfo == 0xb || t.progError == 0xe
  {
  }

  lemma SlotLaid(b: Buffer, t: TimerSlot)
    requires BytesAt(b, 2, SlotBytes(t))
    ensures SlotAt(b, t)
  {
    hide Bcd, TwoDigits;
    var s := b[2..9];
    assert s[0] == b[2] && s[1] == b[3] && s[2] == b[4] && s[3] == b[5] && s[4] == b[6] && s[5] == b[7] && s[6] == b[8];
    BcdNumber(t.startHr);
    BcdNumber(t.startMin);
    BcdNumber(t.durHr);
    BcdNumber(t.durMin);
  }

  lemma SlotFirst(b: Buffer, t: TimerSlot)
    requires BytesAt(b, 2, SlotBytes(t))
    ensures forall c: Buffer | (forall k | 0 <= k < 9 :: c[k] == b[k]) :: BytesAt(c, 2, SlotBytes(t))
  {
    forall c: Buffer | forall k | 0 <= k < 9 :: c[k] == b[k]
      ensures BytesAt(c, 2, SlotBytes(t))
    {
      assert c[2..9] == b[2..9];
    }
  }

  lemma FrameTimer(m: Msg, set_: bool, reply: bool, t: TimerSlot, src: TimerSrc)
    ensures TimerFrame(Apply(m, Timer(set_, reply, t, src)), t, src)
  {
    hide Apply, Hi, Lo, Num16, Put, DigitalBytes, AnalogueBytes, BytesAt, DigitalAt, AnalogueAt, SlotBytes, SlotAt,
         TimerOpcode;
    var b0 := m.buf[1 := TimerOpcode(set_, src)];
    var b1 := Put(b0, 2, SlotBytes(t));
    var b := Apply(m, Timer(set_, reply, t, src)).buf;
    PutHolds(b0, 2, SlotBytes(t));
    SlotFirst(b1, t);
    match src {
      case AnalogueTimer(x) =>
        AnalogueTimerEffect(m, set_, reply, t, x);
        PutHolds(b1, 9, AnalogueBytes(x));
        AnalogueLaid(b, 9, x);
      case DigitalTimer(d) =>
        DigitalTimerEffect(m, set_, reply, t, d);
        PutHolds(b1, 9, DigitalBytes(d));
        DigitalLaid(b, 9, d);
      case ExtTimer(spec, plug, addr) =>
        ExtTimerEffect(m, set_, reply, t, spec, plug, addr);
        WordIn(b, 11, addr);
    }
    SlotLaid(b, t);
  }

  /** The two decimal digits of `v`, one in each nibble. */
  predicate DecimalOf(b: bv8, v: bv8) {
    b / 16 == v / 10 && b % 16 == v % 10 && b / 16 < 10 && b % 16 < 10
  }

  lemma DecimalDigits(b: bv8, v: bv8)
    requires v < 100 && TwoDigits(b, v)
    ensures DecimalOf(b, v)
  {
  }

  /** Every legal time, and everything else below 100, is stored in decimal. */
  lemma TimerDigits(m: Msg, set_: bool, reply: bool, t: TimerSlot, src: TimerSrc)
    requires t.startHr < 100 && t.startMin < 100 && t.durHr < 100 && t.durMin < 100
    ensures var b := Apply(m, Timer(set_, reply, t, src)).buf;
            DecimalOf(b[4], t.startHr) && DecimalOf(b[5], t.startMin)
            && DecimalOf(b[6], t.durHr) && DecimalOf(b[7], t.durMin)
  {
    hide Apply, TwoDigits, DecimalOf, DigitalAt, AnalogueAt;
    FrameTimer(m, set_, reply, t, src);
    var b := Apply(m, Timer(set_, reply, t, src)).buf;
    DecimalDigits(b[4], t.startHr);
    DecimalDigits(b[5], t.startMin);
    DecimalDigits(b[6], t.durHr);
    DecimalDigits(b[7], t.durMin);
  }

  lemma TimerStatusDigits(m: Msg, t: TimerInfo)
    requires t.progInfo == 0x9 || t.progInfo == 0xb || t.progError == 0xe
    requires t.hr < 100 && t.min < 100
    ensures var b := Apply(m, TimerStatus(t)).buf; DecimalOf(b[3], t.hr) && DecimalOf(b[4], t.min)
  {
    hide Apply, TwoDigits, DecimalOf;
    FrameTimerStatus(m, t);
    var b := Apply(m, TimerStatus(t)).buf;
    DecimalDigits(b[3], t.hr);
    DecimalDigits(b[4], t.min);
  }

  lemma FramePayload(m: Msg, op: Op)
    requires Valid(op)
    requires op.Text? || op.OsdString? || op.Blob? || op.SetMenuLanguage?
    ensures Frame(Apply(m, op), op)
  {
    hide Apply, IsText, IsBlob, AsBroadcast, Put;
    match op
    case Text(opcode, text) =>
      PrefixFits(text, 14);
      LengthNumber(text, 14);
      TextEffect(m, opcode, text);
      PutHolds(m.buf[1 := opcode], 2, text[..Min(StrLen(text), 14)]);
    case OsdString(ctl, text) =>
      PrefixFits(text, 13);
      LengthNumber(text, 13);
      OsdStringEffect(m, ctl, text);
      PutHolds(m.buf[1 := MSG_SET_OSD_STRING][2 := ctl], 3, text[..Min(StrLen(text), 13)]);
    case Blob(opcode, size, data) =>
      BlobEffect(m, opcode, size, data);
      PutHolds(m.buf[1 := opcode], 2, data[..Min(size, 14)]);
    case SetMenuLanguage(language) =>
      SetMenuLanguageEffect(m, language);
      PutHolds(m.buf[0 := AsBroadcast(m.buf[0])][1 := MSG_SET_MENU_LANGUAGE], 2, language[..3]);
  }

  lemma LengthNumber(text: seq<bv8>, cap: nat)
    ensures Min(StrLen(text), cap) == AtMost(|text| % 0x1_0000_0000, cap)
  {
  }

  lemma FrameVendorId(m: Msg, vendor: bv32)
    ensures var a := Apply(m, DeviceVendorId(vendor)); a.len == 5 && Num24(a.buf, 2) == Mod24(vendor)
  {
    hide Apply, AsBroadcast, Byte0, Byte1, Byte2, Num24, Mod24;
    DeviceVendorIdEffect(m, vendor);
    TripleIn(Apply(m, DeviceVendorId(vendor)).buf, 2, vendor);
  }

  lemma FrameVendorCommand(m: Msg, vendor: bv32, size: u8, data: seq<bv8>)
    requires Min(size, 11) <= |data|
    ensures var a := Apply(m, VendorCommandWithId(vendor, size, data));
            Num24(a.buf, 2) == Mod24(vendor) && EndsWith(a, 5, data[..AtMost(size, 11)])
  {
    hide Apply, Put, Byte0, Byte1, Byte2, Num24, Mod24;
    var b0 := m.buf[1 := MSG_VENDOR_COMMAND_WITH_ID][2 := Byte2(vendor)][3 := Byte1(vendor)][4 := Byte0(vendor)];
    assert b0[2] == Byte2(vendor) && b0[3] == Byte1(vendor) && b0[4] == Byte0(vendor);
    VendorCommandWithIdEffect(m, vendor, size, data);
    PutHolds(b0, 5, data[..Min(size, 11)]);
    TripleIn(Apply(m, VendorCommandWithId(vendor, size, data)).buf, 2, vendor);
  }

  lemma FrameTuner(m: Msg, recFlag: bv8, display: bv8, service: Service)
    ensures TunerFrame(Apply(m, TunerStatus(recFlag, display, service)), recFlag, display, service)
  {
    hide Apply, Put, DigitalBytes, AnalogueBytes, BytesAt, ServiceAt, FlagByte;
    var b := Apply(m, TunerStatus(recFlag, display, service)).buf;
    FlagNumber(recFlag, display);
    PutHolds(m.buf[1 := MSG_TUNER_DEVICE_STATUS][2 := FlagByte(recFlag, display)], 3, ServiceBytes(service));
    match service {
      case AnalogueService(x) => TunerAnalogueEffect(m, recFlag, display, x);
      case DigitalService(d) => TunerDigitalEffect(m, recFlag, display, d);
    }
    ServiceLaid(b, 3, service);
  }

  lemma FrameSelect(m: Msg, service: Service)
    ensures var a := Apply(m, SelectService(service));
            a.len == (if service.AnalogueService? then 6 else 9) && ServiceAt(a.buf, 2, service)
  {
    hide Apply, Put, DigitalBytes, AnalogueBytes, BytesAt, ServiceAt;
    var b := Apply(m, SelectService(service)).buf;
    match service {
      case AnalogueService(x) =>
        SelectAnalogueEffect(m, x);
        PutHolds(m.buf[1 := MSG_SELECT_ANALOGUE_SERVICE], 2, ServiceBytes(service));
      case DigitalService(d) =>
        SelectDigitalEffect(m, d);
        PutHolds(m.buf[1 := MSG_SELECT_DIGITAL_SERVICE], 2, ServiceBytes(service));
    }
    ServiceLaid(b, 2, service);
  }

  lemma FrameUserControl(m: Msg, u: UiCommand)
    ensures UiFrame(Apply(m, UserControl(u)), u)
  {
    hide Apply, Hi, Lo, ChannelHigh, Num16, UiCommand.TakesByte, UiCommand.TakesChannel;
    var b := Apply(m, UserControl(u)).buf;
    UserControlEffect(m, u);
    CommandNumbers(u);
    if u.hasArg && u.TakesChannel() && !u.TakesByte() {
      ChannelIn(b, 3, u.first, u.major);
      WordIn(b, 5, u.minor);
    }
  }

  lemma FrameSmall(m: Msg, op: Op)
    requires op.ReportFeatures? || op.FeatureAbort?
    ensures Frame(Apply(m, op), op)
  {
    hide Apply, AsBroadcast;
    match op
    case ReportFeatures(version, devTypes, rcProfile, devFeatures) =>
      ReportFeaturesEffect(m, version, devTypes, rcProfile, devFeatures);
    case FeatureAbort(aborted, reason) => FeatureAbortEffect(m, aborted, reason);
  }

  lemma FrameAudio(m: Msg, op: Op)
    requires op.AudioStatus? || op.SystemAudioRequest?
    ensures Frame(Apply(m, op), op)
  {
    hide Apply, Hi, Lo, Num16, FlagByte, FlagLow;
    match op
    case AudioStatus(mute, volume) =>
      AudioStatusEffect(m, mute, volume);
      VolumeNumber(mute, volume);
    case SystemAudioRequest(reply, addr) =>
      SystemAudioRequestEffect(m, reply, addr);
      WordIn(Apply(m, op).buf, 2, addr);
  }

  lemma VolumeNumber(mute: bv8, volume: bv8)
    ensures mute < 2 ==> FlagByte(mute, FlagLow(volume)) == mute * 128 + volume % 128
  {
  }

  lemma {:induction false} DescriptorAt(ds: seq<bv32>, i: nat)
    requires i < |ds|
    ensures var s := DescriptorBytes(ds);
            s[3 * i] == Byte2(ds[i]) && s[3 * i + 1] == Byte1(ds[i]) && s[3 * i + 2] == Byte0(ds[i])
  {
    hide Byte2, Byte1, Byte0;
    if i < |ds| - 1 { DescriptorAt(ds[..|ds| - 1], i); }
  }

  lemma FrameDescriptors(m: Msg, num: u8, ds: seq<bv32>)
    requires Min(num, 4) <= |ds|
    ensures DescriptorsFrame(Apply(m, ReportDescriptors(num, ds)), num, ds)
  {
    hide Apply, Num24, Mod24, Put, DescriptorBytes, BytesAt;
    var n := Min(num, 4);
    var s := DescriptorBytes(ds[..n]);
    var a := Apply(m, ReportDescriptors(num, ds));
    ReportDescriptorsEffect(m, num, ds);
    PutHolds(m.buf[1 := MSG_REPORT_SHORT_AUDIO_DESCRIPTOR], 2, s);
    forall i | 0 <= i < n
      ensures Num24(a.buf, 2 + 3 * i) == Mod24(ds[i])
    {
      TripleLaid(a.buf, ds[..n], i);
    }
  }

  lemma TripleLaid(b: Buffer, ds: seq<bv32>, i: nat)
    requires i < |ds| <= 4 && BytesAt(b, 2, DescriptorBytes(ds))
    ensures Num24(b, 2 + 3 * i) == Mod24(ds[i])
  {
    hide Byte0, Byte1, Byte2, Num24, Mod24, DescriptorBytes;
    var t := b[2..2 + 3 * |ds|];
    DescriptorAt(ds, i);
    assert t[3 * i] == b[2 + 3 * i] && t[3 * i + 1] == b[2 + 3 * i + 1] && t[3 * i + 2] == b[2 + 3 * i + 2];
    TripleIn(b, 2 + 3 * i, ds[i]);
  }

  lemma FrameFormats(m: Msg, reply: bool, num: u8, ids: seq<bv8>, codes: seq<bv8>)
    requires Min(num, 4) <= |ids| && Min(num, 4) <= |codes|
    ensures FormatsFrame(Apply(m, RequestDescriptors(reply, num, ids, codes)), num, ids, codes)
  {
    hide Apply, FormatByte, Put;
    var n := Min(num, 4);
    var s := FormatBytes(ids[..n], codes[..n]);
    var a := Apply(m, RequestDescriptors(reply, num, ids, codes));
    RequestDescriptorsEffect(m, reply, num, ids, codes);
    PutHolds(m.buf[1 := MSG_REQUEST_SHORT_AUDIO_DESCRIPTOR], 2, s);
    forall i | 0 <= i < n
      ensures a.buf[2 + i] == ids[i] % 4 * 64 + codes[i] % 64
    {
      assert a.buf[2..2 + |s|][i] == s[i] == FormatByte(ids[i], codes[i]);
      FormatNumber(ids[i], codes[i]);
    }
  }

  lemma FrameLatency(m: Msg, addr: bv16, video: bv8, low: bv8, comp: bv8, delay: bv8)
    ensures LatencyFrame(Apply(m, ReportLatency(addr, video, low, comp, delay)), addr, video, low, comp, delay)
  {
    hide Apply, AsBroadcast, Hi, Lo, Num16, LatencyByte;
    ReportLatencyEffect(m, addr, video, low, comp, delay);
    LatencyNumber(low, comp);
    WordIn(Apply(m, ReportLatency(addr, video, low, comp, delay)).buf, 2, addr);
  }

  predicate HoldsSub(a: Msg, c: CdcOp) { a.len == 4 + |CdcBytes(c)| && BytesAt(a.buf, 4, CdcBytes(c)) }

  lemma CdcPlaced(m: Msg, c: CdcOp)
    ensures HoldsSub(Apply(m, Cdc(c)), c)
  {
    hide Apply, AsBroadcast, CdcBytes, Put, BytesAt;
    CdcEffect(m, c);
    PutHolds(m.buf[0 := AsBroadcast(m.buf[0])][1 := MSG_CDC_MESSAGE], 4, CdcBytes(c));
  }

  lemma FrameSetState(a: Msg, c: CdcOp)
    requires c.HecSetState? && HoldsSub(a, c)
    ensures SetStateFrame(a, c)
  {
    hide Hi, Lo, Num16, AddrTail;
    var b, t := a.buf, AddrTail(c.addr3, c.addr4, c.addr5);
    OptionalAddrs(c.addr3, c.addr4, c.addr5);
    var s := b[4..a.len];
    assert s[0] == b[4] && s[1] == b[5] && s[2] == b[6] && s[3] == b[7] && s[4] == b[8] && s[5] == b[9];
    WordIn(b, 5, c.addr1);
    WordIn(b, 7, c.addr2);
    assert b[10..a.len] == s[6..] == t;
    TailLaid(a, c.addr3, c.addr4, c.addr5);
  }

  lemma TailLaid(a: Msg, a3: bv16, a4: bv16, a5: bv16)
    requires a.len == 10 + |AddrTail(a3, a4, a5)| && a.buf[10..a.len] == AddrTail(a3, a4, a5)
    ensures if a3 == 0xffff then a.len == 10
            else Num16(a.buf, 10) == a3 &&
                 if a4 == 0xffff then a.len == 12
                 else Num16(a.buf, 12) == a4 &&
                      if a5 == 0xffff then a.len == 14 else Num16(a.buf, 14) == a5 && a.len == 16
  {
    hide Hi, Lo, Num16;
    var b, t := a.buf, a.buf[10..a.len];
    if a3 != 0xffff {
      assert t[0] == b[10] && t[1] == b[11];
      WordIn(b, 10, a3);
      if a4 != 0xffff {
        assert t[2] == b[12] && t[3] == b[13];
        WordIn(b, 12, a4);
        if a5 != 0xffff {
          assert t[4] == b[14] && t[5] == b[15];
          WordIn(b, 14, a5);
        }
      }
    }
  }

  lemma FrameReport(a: Msg, c: CdcOp)
    requires c.HecReportState? && HoldsSub(a, c)
    ensures CdcFrame(a, c)
  {
    hide Hi, Lo, Num16, HecStateByte, FourStates;
    var b := a.buf;
    var s := b[4..a.len];
    assert s[0] == b[4] && s[1] == b[5] && s[2] == b[6] && s[3] == b[7];
    StatesNumber(c.hec, c.host, c.enc, c.err);
    WordIn(b, 5, c.target);
    if c.hasField {
      assert s[4] == b[8] && s[5] == b[9];
      WordIn(b, 8, c.field);
    }
  }

  lemma FramePort(a: Msg, c: CdcOp)
    requires (c.HpdSetState? || c.HpdReportState? || c.HecNotifyAlive? || c.HecDiscover?) && HoldsSub(a, c)
    ensures CdcFrame(a, c)
  {
    hide NibbleByte;
    var s := a.buf[4..a.len];
    assert s[0] == a.buf[4];
    if c.HpdSetState? {
      assert s[1] == a.buf[5];
      NibbleNumber(c.port, c.hpd);
    } else if c.HpdReportState? {
      assert s[1] == a.buf[5];
      NibbleNumber(c.hpd, c.hpdError);
    }
  }

  lemma FrameAddresses(a: Msg, c: CdcOp)
    requires (c.HecInquireState? || c.HecSetStateAdjacent? || c.HecRequestDeactivation?) && HoldsSub(a, c)
    ensures CdcFrame(a, c)
  {
    hide Hi, Lo, Num16;
    var b := a.buf;
    var s := b[4..a.len];
    assert s[0] == b[4] && s[1] == b[5] && s[2] == b[6] && s[3] == b[7];
    WordIn(b, 5, c.addr1);
    if !c.HecSetStateAdjacent? {
      assert s[4] == b[8];
      WordIn(b, 7, c.addr2);
      if c.HecRequestDeactivation? {
        assert s[5] == b[9] && s[6] == b[10];
        WordIn(b, 9, c.addr3);
      }
    }
  }

  lemma FrameCdc(m: Msg, c: CdcOp)
    ensures CdcFrame(Apply(m, Cdc(c)), c)
  {
    hide Apply, HoldsSub, SetStateFrame;
    var a := Apply(m, Cdc(c));
    CdcPlaced(m, c);
    if c.HecSetState? {
      FrameSetState(a, c);
    } else if c.HecReportState? {
      FrameReport(a, c);
    } else if c.HecInquireState? || c.HecSetStateAdjacent? || c.HecRequestDeactivation? {
      FrameAddresses(a, c);
    } else {
      FramePort(a, c);
    }
  }

  predicate Tagged(op: Op) {
    op.RecordOn? || op.TimerStatus? || op.Timer? || op.TunerStatus? || op.SelectService? || op.UserControl? || op.Cdc?
  }

  predicate Plain(op: Op) {
    || op.Bare? || op.OneByte? || op.Address? || op.RoutingChange? || op.ReportPhysicalAddr?
    || op.ReportFeatures? || op.FeatureAbort? || op.AudioStatus? || op.SystemAudioRequest?
  }

  lemma FrameServices(m: Msg, op: Op)
    requires Effective(op) && (op.RecordOn? || op.TunerStatus? || op.SelectService?)
    ensures Frame(Apply(m, op), op)
  {
    hide Apply, RecordFrame, TunerFrame, ServiceAt;
    match op
    case RecordOn(reply, src) => FrameRecordOn(m, reply, src);
    case TunerStatus(recFlag, display, service) => FrameTuner(m, recFlag, display, service);
    case SelectService(service) => FrameSelect(m, service);
  }

  lemma FrameTagged(m: Msg, op: Op)
    requires Valid(op) && Effective(op) && Tagged(op)
    ensures Frame(Apply(m, op), op)
  {
    hide Apply, InfoFrame, TimerFrame, UiFrame, CdcFrame, Valid, Effective;
    if op.RecordOn? || op.TunerStatus? || op.SelectService? {
      hide Frame;
      FrameServices(m, op);
    } else {
      match op
      case TimerStatus(info) => FrameTimerStatus(m, info);
      case Timer(set_, reply, slot, src) => FrameTimer(m, set_, reply, slot, src);
      case UserControl(ui) => FrameUserControl(m, ui);
      case Cdc(c) => FrameCdc(m, c);
    }
  }

  lemma FramePlain(m: Msg, op: Op)
    requires Valid(op) && Plain(op)
    ensures Frame(Apply(m, op), op)
  {
    hide Apply, Frame, Valid;
    if op.Bare? || op.OneByte? || op.Address? {
      FrameFixed(m, op);
    } else if op.RoutingChange? || op.ReportPhysicalAddr? {
      FrameRouting(m, op);
    } else if op.ReportFeatures? || op.FeatureAbort? {
      FrameSmall(m, op);
    } else {
      FrameAudio(m, op);
    }
  }

  lemma FrameVendor(m: Msg, op: Op)
    requires Valid(op) && (op.VendorCommandWithId? || op.DeviceVendorId?)
    ensures Frame(Apply(m, op), op)
  {
    hide Apply, Num24, Mod24, EndsWith;
    match op
    case VendorCommandWithId(vendor, size, data) => FrameVendorCommand(m, vendor, size, data);
    case DeviceVendorId(vendor) => FrameVendorId(m, vendor);
  }

  lemma FrameLists(m: Msg, op: Op)
    requires Valid(op) && (op.ReportDescriptors? || op.RequestDescriptors? || op.ReportLatency?)
    ensures Frame(Apply(m, op), op)
  {
    hide Apply, DescriptorsFrame, FormatsFrame, LatencyFrame;
    match op
    case ReportDescriptors(num, ds) => FrameDescriptors(m, num, ds);
    case RequestDescriptors(reply, num, ids, codes) => FrameFormats(m, reply, num, ids, codes);
    case ReportLatency(addr, video, low, comp, delay) => FrameLatency(m, addr, video, low, comp, delay);
  }

  lemma FrameCounted(m: Msg, op: Op)
    requires Valid(op) && !Tagged(op) && !Plain(op)
    ensures Frame(Apply(m, op), op)
  {
    hide Apply, Frame, Valid;
    if op.VendorCommandWithId? || op.DeviceVendorId? {
      FrameVendor(m, op);
    } else if op.ReportDescriptors? || op.RequestDescriptors? || op.ReportLatency? {
      FrameLists(m, op);
    } else {
      FramePayload(m, op);
    }
  }

  /** Every message-building call, with any operands, on any message, lays its
      operands out as the standard says. */
  lemma EveryFrame(m: Msg, op: Op)
    requires Valid(op) && Effective(op)
    ensures Frame(Apply(m, op), op)
  {
    hide Apply, Frame, Valid, Effective;
    if Tagged(op) {
      FrameTagged(m, op);
    } else if Plain(op) {
      FramePlain(m, op);
    } else {
      FrameCounted(m, op);
    }
  }
}
