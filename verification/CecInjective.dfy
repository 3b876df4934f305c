/** The wire determines the canonical form of a call, and nothing more. */
module CecInjective {
  import opened Options
  import opened CecBytes
  import opened CecOps
  import opened CecWire
  import opened CecRead
  import opened CecEffects

  lemma ChannelWordFields(format: bv8, major: bv16)
    ensures ChannelFormat(ChannelWord(format, major)) == CanonChannel(format, major).0
    ensures ChannelMajor(ChannelWord(format, major)) == CanonChannel(format, major).1
  {
  }

  lemma ChannelHead(d: Digital)
    requires d.ByChannel()
    ensures DigitalHead(d) >= 0x80 && DigitalHead(d) & 0x7f == d.system & 0x7f
  {
  }

  lemma DigitalOfWords(d: Digital)
    ensures var (w0, w1, w2) := DigitalWords(d); DigitalOf(DigitalHead(d), w0, w1, w2) == CanonDigital(d)
  {
    if d.ByChannel() {
      ChannelHead(d);
      ChannelWordFields(d.Format(), d.w1);
    }
  }

  lemma WordAtBytes(b: seq<bv8>, i: nat, w: bv16)
    requires i + 2 <= |b| && b[i] == Hi(w) && b[i + 1] == Lo(w)
    ensures WordAt(b, i) == w
  {
    WordHiLo(w);
  }

  lemma ReadDigitalBytes(b: seq<bv8>, i: nat, d: Digital)
    requires i + 7 <= |b| && b[i..i + 7] == DigitalBytes(d)
    ensures ReadDigital(b, i) == CanonDigital(d)
  {
    var s := b[i..i + 7];
    var (w0, w1, w2) := DigitalWords(d);
    assert s[0] == b[i] && s[1] == b[i + 1] && s[2] == b[i + 2] && s[3] == b[i + 3]
        && s[4] == b[i + 4] && s[5] == b[i + 5] && s[6] == b[i + 6];
    WordAtBytes(b, i + 1, w0);
    WordAtBytes(b, i + 3, w1);
    WordAtBytes(b, i + 5, w2);
    DigitalOfWords(d);
  }

  /** The first `len` bytes of `b` are a message built by `op`. */
  predicate Carries(b: seq<bv8>, len: nat, op: Op, p: bv8, q: bv8)
    requires Valid(op)
  {
    len == 1 + |Body(op, p, q)| <= |b| && b[1..len] == Body(op, p, q)
  }

  /** `Carries`, split into opcode and operands. */
  predicate Holds(b: seq<bv8>, len: nat, op: Op, p: bv8, q: bv8)
    requires Valid(op)
  {
    Effective(op) && 2 <= len <= |b| && b[1] == Opcode(op) && b[2..len] == Operands(op, p, q)
  }

  lemma CarriedOperands(b: seq<bv8>, len: nat, op: Op, p: bv8, q: bv8)
    requires Valid(op) && Effective(op) && Carries(b, len, op, p, q)
    ensures Holds(b, len, op, p, q)
  {
    assert b[1..len][0] == Opcode(op);
    assert b[2..len] == b[1..len][1..];
  }

  lemma ReadService(b: seq<bv8>, i: nat, s: Service)
    requires i + |ServiceBytes(s)| <= |b| && b[i..i + |ServiceBytes(s)|] == ServiceBytes(s)
    ensures s.AnalogueService? ==> ReadAnalogue(b, i) == s.analogue
    ensures s.DigitalService? ==> ReadDigital(b, i) == CanonDigital(s.digital)
  {
    if s.DigitalService? {
      ReadDigitalBytes(b, i, s.digital);
    } else {
      ReadAnalogueBytes(b, i, s.analogue);
    }
  }

  lemma ReadAnalogueBytes(b: seq<bv8>, i: nat, a: Analogue)
    requires i + 4 <= |b| && b[i..i + 4] == AnalogueBytes(a)
    ensures ReadAnalogue(b, i) == a
  {
    var s := b[i..i + 4];
    assert s[0] == b[i] && s[1] == b[i + 1] && s[2] == b[i + 2] && s[3] == b[i + 3];
    WordAtBytes(b, i + 1, a.freq);
  }

  lemma ReadRecordOn(b: seq<bv8>, src: RecordSrc)
    requires !src.UnknownSrc?
    requires 2 + |RecordSrcBytes(src)| <= |b| && b[2..2 + |RecordSrcBytes(src)|] == RecordSrcBytes(src)
    ensures ReadRecordSrc(b) == CanonRecordSrc(src)
  {
    var s := b[2..2 + |RecordSrcBytes(src)|];
    assert s[0] == b[2];
    match src
    case Own =>
    case DigitalSrc(d) =>
      assert b[3..10] == s[1..8];
      ReadDigitalBytes(b, 3, d);
    case AnalogueSrc(a) =>
      assert b[3..7] == s[1..5];
      ReadAnalogueBytes(b, 3, a);
    case Plug(plug) =>
      assert s[1] == b[3];
    case ExtAddress(addr) =>
      assert s[1] == b[3] && s[2] == b[4];
      WordAtBytes(b, 3, addr);
  }

  lemma UnBcdAt(b: seq<bv8>, i: nat, v: bv8)
    requires i < |b| && b[i] == Bcd(v)
    ensures UnBcd(At(b, i)) == Mod160(v)
  {
    BcdRoundTrip(v);
  }

  lemma ReadTimer(b: seq<bv8>, set_: bool, slot: TimerSlot, src: TimerSrc)
    requires 9 + |TimerSrcBytes(src)| <= |b|
    requires b[2..9 + |TimerSrcBytes(src)|] == SlotBytes(slot) + TimerSrcBytes(src)
    ensures ReadSlot(b) == CanonSlot(slot)
    ensures ReadTimerSrc(TimerOpcode(set_, src), b) == CanonTimerSrc(src)
  {
    var n := |TimerSrcBytes(src)|;
    var s := b[2..9 + n];
    assert s[..7] == SlotBytes(slot) && s[7..] == TimerSrcBytes(src);
    assert b[2..9] == s[..7] && b[9..9 + n] == s[7..];
    ReadSlotBytes(b, slot);
    match src
    case AnalogueTimer(a) => ReadAnalogueBytes(b, 9, a);
    case DigitalTimer(d) => ReadDigitalBytes(b, 9, d);
    case ExtTimer(spec, plug, addr) =>
      assert s[7] == b[9] && s[8] == b[10] && s[9] == b[11] && s[10] == b[12];
      WordAtBytes(b, 11, addr);
  }

  lemma ReadSlotBytes(b: seq<bv8>, t: TimerSlot)
    requires 9 <= |b| && b[2..9] == SlotBytes(t)
    ensures ReadSlot(b) == CanonSlot(t)
  {
    hide Bcd, UnBcd, Mod160;
    var s := b[2..9];
    assert s[0] == b[2] && s[1] == b[3] && s[2] == b[4] && s[3] == b[5] && s[4] == b[6] && s[5] == b[7] && s[6] == b[8];
    UnBcdAt(b, 4, t.startHr);
    UnBcdAt(b, 5, t.startMin);
    UnBcdAt(b, 6, t.durHr);
    UnBcdAt(b, 7, t.durMin);
  }

  lemma ReadUiBytes(b: seq<bv8>, len: nat, u: UiCommand)
    requires len == 2 + |UiBytes(u)| <= |b| && b[2..len] == UiBytes(u)
    ensures ReadUi(b, len) == CanonUi(u)
  {
    var s := b[2..len];
    assert s[0] == b[2];
    if u.hasArg && u.TakesByte() {
      assert s[1] == b[3];
    } else if u.hasArg && u.TakesChannel() {
      assert s[1] == b[3] && s[2] == b[4] && s[3] == b[5] && s[4] == b[6];
      var w := ChannelWord(u.first, u.major);
      WordAtBytes(b, 3, w);
      WordAtBytes(b, 5, u.minor);
      ChannelWordFields(u.first, u.major);
    }
  }

  lemma TripleAtBytes(b: seq<bv8>, i: nat, d: bv32)
    requires i + 3 <= |b| && b[i] == Byte2(d) && b[i + 1] == Byte1(d) && b[i + 2] == Byte0(d)
    ensures TripleAt(b, i) == Low24(d)
  {
    TripleBytes(d);
  }

  lemma SplitLastThree(b: seq<bv8>, n: nat, t: seq<bv8>, x: bv8, y: bv8, z: bv8)
    requires n > 0 && 2 + 3 * n <= |b| && |t| == 3 * (n - 1) && b[2..2 + 3 * n] == t + [x, y, z]
    ensures b[2..2 + 3 * (n - 1)] == t && b[3 * n - 1] == x && b[3 * n] == y && b[3 * n + 1] == z
  {
    var s := b[2..2 + 3 * n];
    assert forall k | 0 <= k < |t| :: b[2 + k] == s[k] == t[k];
    assert b[3 * n - 1] == s[3 * n - 3] && b[3 * n] == s[3 * n - 2] && b[3 * n + 1] == s[3 * n - 1];
  }

  lemma {:induction false} ReadDescriptorBytes(b: seq<bv8>, ds: seq<bv32>)
    requires 2 + 3 * |ds| <= |b| && b[2..2 + 3 * |ds|] == DescriptorBytes(ds)
    ensures ReadDescriptors(b, |ds|) == CanonDescriptors(ds)
  {
    var n := |ds|;
    if n > 0 {
      var d := ds[n - 1];
      SplitLastThree(b, n, DescriptorBytes(ds[..n - 1]), Byte2(d), Byte1(d), Byte0(d));
      ReadDescriptorBytes(b, ds[..n - 1]);
      TripleAtBytes(b, 3 * n - 1, d);
    }
  }

  lemma FormatByteFields(id: bv8, code: bv8)
    ensures High2(FormatByte(id, code)) == Low2(id) && Low6(FormatByte(id, code)) == Low6(code)
  {
  }

  lemma ReadFormats(s: seq<bv8>, ids: seq<bv8>, codes: seq<bv8>)
    requires |ids| == |codes| && s == FormatBytes(ids, codes)
    ensures MapBytes(s, High2) == MapBytes(ids, Low2) && MapBytes(s, Low6) == MapBytes(codes, Low6)
  {
    forall i | 0 <= i < |s|
      ensures High2(s[i]) == Low2(ids[i]) && Low6(s[i]) == Low6(codes[i])
    {
      FormatByteFields(ids[i], codes[i]);
    }
  }

  lemma HecFields(hec: bv8, host: bv8, enc: bv8, err: bv8)
    ensures HecStates(HecStateByte(hec, host, enc, err)) == CanonHec(hec, host, enc, err)
  {
  }

  lemma NibbleFields(hi: bv8, lo: bv8)
    ensures NibbleByte(hi, lo) >> 4 == (hi | (lo >> 4)) & 0xf && NibbleByte(hi, lo) & 0xf == lo & 0xf
  {
  }

  lemma FlagFields(flag: bv8, low: bv8)
    ensures FlagHigh(FlagByte(flag, low)) == CanonFlag(flag, low) && FlagLow(FlagByte(flag, low)) == FlagLow(low)
    ensures FlagLow(FlagLow(low)) == FlagLow(low)
  {
  }

  predicate HoldsCdc(b: seq<bv8>, len: nat, c: CdcOp) {
    len == 4 + |CdcBytes(c)| <= |b| && b[4..len] == CdcBytes(c)
  }

  lemma ReadHecInquire(b: seq<bv8>, len: nat, c: CdcOp)
    requires c.HecInquireState? && HoldsCdc(b, len, c)
    ensures ReadCdc(b, len) == CanonCdc(c)
  {
    var s := b[4..len];
    assert b[4] == s[0] && b[5] == s[1] && b[6] == s[2] && b[7] == s[3] && b[8] == s[4];
    WordAtBytes(b, 5, c.addr1);
    WordAtBytes(b, 7, c.addr2);
  }

  lemma ReadHecAdjacent(b: seq<bv8>, len: nat, c: CdcOp)
    requires c.HecSetStateAdjacent? && HoldsCdc(b, len, c)
    ensures ReadCdc(b, len) == CanonCdc(c)
  {
    var s := b[4..len];
    assert b[4] == s[0] && b[5] == s[1] && b[6] == s[2] && b[7] == s[3];
    WordAtBytes(b, 5, c.addr1);
  }

  lemma ReadHecDeactivation(b: seq<bv8>, len: nat, c: CdcOp)
    requires c.HecRequestDeactivation? && HoldsCdc(b, len, c)
    ensures ReadCdc(b, len) == CanonCdc(c)
  {
    var s := b[4..len];
    assert b[4] == s[0] && b[5] == s[1] && b[6] == s[2] && b[7] == s[3]
        && b[8] == s[4] && b[9] == s[5] && b[10] == s[6];
    WordAtBytes(b, 5, c.addr1);
    WordAtBytes(b, 7, c.addr2);
    WordAtBytes(b, 9, c.addr3);
  }

  lemma ReadHpd(b: seq<bv8>, len: nat, c: CdcOp)
    requires (c.HpdSetState? || c.HpdReportState?) && HoldsCdc(b, len, c)
    ensures ReadCdc(b, len) == CanonCdc(c)
  {
    var s := b[4..len];
    assert b[4] == s[0] && b[5] == s[1];
    if c.HpdSetState? {
      NibbleFields(c.port, c.hpd);
    } else {
      NibbleFields(c.hpd, c.hpdError);
    }
  }

  lemma ReadHecBare(b: seq<bv8>, len: nat, c: CdcOp)
    requires (c.HecNotifyAlive? || c.HecDiscover?) && HoldsCdc(b, len, c)
    ensures ReadCdc(b, len) == CanonCdc(c)
  {
    assert b[4] == b[4..len][0];
  }

  lemma HecReportBytes(b: seq<bv8>, len: nat, c: CdcOp)
    requires c.HecReportState? && HoldsCdc(b, len, c)
    ensures len <= |b| && len == if c.hasField then 10 else 8
    ensures b[4] == CDC_HEC_REPORT_STATE && b[7] == HecStateByte(c.hec, c.host, c.enc, c.err)
    ensures WordAt(b, 5) == c.target && (c.hasField ==> WordAt(b, 8) == c.field)
  {
    var s := b[4..len];
    assert b[4] == s[0] && b[5] == s[1] && b[6] == s[2] && b[7] == s[3];
    WordAtBytes(b, 5, c.target);
    if c.hasField {
      assert b[8] == s[4] && b[9] == s[5];
      WordAtBytes(b, 8, c.field);
    }
  }

  lemma ReadHecReport(b: seq<bv8>, len: nat, c: CdcOp)
    requires c.HecReportState? && HoldsCdc(b, len, c)
    ensures ReadCdc(b, len) == CanonCdc(c)
  {
    hide HecStates, HecStateByte, CanonHec, CdcBytes, HoldsCdc, WordAt;
    HecReportBytes(b, len, c);
    HecFields(c.hec, c.host, c.enc, c.err);
  }

  lemma ReadCdcBytes(b: seq<bv8>, len: nat, c: CdcOp)
    requires HoldsCdc(b, len, c)
    ensures ReadCdc(b, len) == CanonCdc(c)
  {
    hide ReadCdc, CanonCdc, CdcBytes, HoldsCdc;
    if c.HecInquireState? {
      ReadHecInquire(b, len, c);
    } else if c.HecReportState? {
      ReadHecReport(b, len, c);
    } else if c.HecSetState? {
      ReadHecSetState(b, len, c);
    } else if c.HecSetStateAdjacent? {
      ReadHecAdjacent(b, len, c);
    } else if c.HecRequestDeactivation? {
      ReadHecDeactivation(b, len, c);
    } else if c.HpdSetState? || c.HpdReportState? {
      ReadHpd(b, len, c);
    } else {
      ReadHecBare(b, len, c);
    }
  }

  lemma ReadHecSetState(b: seq<bv8>, len: nat, c: CdcOp)
    requires c.HecSetState? && HoldsCdc(b, len, c)
    ensures ReadCdc(b, len) == CanonCdc(c)
  {
    var s := b[4..len];
    assert b[4] == s[0] && b[5] == s[1] && b[6] == s[2] && b[7] == s[3] && b[8] == s[4] && b[9] == s[5];
    WordAtBytes(b, 5, c.addr1);
    WordAtBytes(b, 7, c.addr2);
    OptionalAddrs(c.addr3, c.addr4, c.addr5);
    if c.addr3 != PHYS_ADDR_INVALID {
      assert b[10] == s[6] && b[11] == s[7];
      WordAtBytes(b, 10, c.addr3);
      if c.addr4 != PHYS_ADDR_INVALID {
        assert b[12] == s[8] && b[13] == s[9];
        WordAtBytes(b, 12, c.addr4);
        if c.addr5 != PHYS_ADDR_INVALID {
          assert b[14] == s[10] && b[15] == s[11];
          WordAtBytes(b, 14, c.addr5);
        }
      }
    }
  }

  lemma ReadTimerStatus(b: seq<bv8>, len: nat, t: TimerInfo)
    requires len == 2 + |TimerInfoBytes(t)| <= |b| && b[2..len] == TimerInfoBytes(t)
    ensures ReadInfo(b, len) == CanonInfo(t)
  {
    var s := b[2..len];
    assert s[0] == b[2];
    if HasDuration(t) {
      assert s[1] == b[3] && s[2] == b[4];
      UnBcdAt(b, 3, t.hr);
      UnBcdAt(b, 4, t.min);
    }
  }

  lemma ReadMadeBare(b: seq<bv8>, len: nat, op: Op, p: bv8, q: bv8)
    requires op.Bare? && Valid(op) && Holds(b, len, op, p, q)
    ensures ReadAs(FBare, b, len) == Some(Canon(op))
  {
  }

  lemma ReadMadeOneByte(b: seq<bv8>, len: nat, op: Op, p: bv8, q: bv8)
    requires op.OneByte? && Valid(op) && Holds(b, len, op, p, q)
    ensures ReadAs(FOneByte, b, len) == Some(Canon(op))
  {
    assert b[2] == b[2..len][0];
  }

  lemma ReadMadeAddress(b: seq<bv8>, len: nat, op: Op, p: bv8, q: bv8)
    requires op.Address? && Valid(op) && Holds(b, len, op, p, q)
    ensures ReadAs(FAddress, b, len) == Some(Canon(op))
  {
    hide Hi, Lo, WordAt;
    assert b[2] == b[2..len][0] && b[3] == b[2..len][1];
    WordAtBytes(b, 2, op.addr);
  }

  lemma ReadMadeRoutingChange(b: seq<bv8>, len: nat, op: Op, p: bv8, q: bv8)
    requires op.RoutingChange? && Valid(op) && Holds(b, len, op, p, q)
    ensures ReadAs(FRoutingChange, b, len) == Some(Canon(op))
  {
    hide Hi, Lo, WordAt;
    var s := b[2..len];
    assert b[2] == s[0] && b[3] == s[1] && b[4] == s[2] && b[5] == s[3];
    WordAtBytes(b, 2, op.from);
    WordAtBytes(b, 4, op.to);
  }

  lemma ReadMadeRecordOn(b: seq<bv8>, len: nat, op: Op, p: bv8, q: bv8)
    requires op.RecordOn? && Valid(op) && Holds(b, len, op, p, q)
    ensures ReadAs(FRecordOn, b, len) == Some(Canon(op))
  {
    hide RecordSrcBytes, ReadRecordSrc, CanonRecordSrc;
    ReadRecordOn(b, op.src);
  }

  lemma ReadMadeTimerStatus(b: seq<bv8>, len: nat, op: Op, p: bv8, q: bv8)
    requires op.TimerStatus? && Valid(op) && Holds(b, len, op, p, q)
    ensures ReadAs(FTimerStatus, b, len) == Some(Canon(op))
  {
    hide TimerInfoBytes, ReadInfo, CanonInfo;
    ReadTimerStatus(b, len, op.info);
  }

  lemma ReadMadeTimer(b: seq<bv8>, len: nat, op: Op, p: bv8, q: bv8)
    requires op.Timer? && Valid(op) && Holds(b, len, op, p, q)
    ensures ReadAs(FTimer, b, len) == Some(Canon(op))
  {
    hide ReadSlot, CanonSlot, ReadTimerSrc, CanonTimerSrc, SlotBytes, TimerSrcBytes;
    ReadTimer(b, op.set_, op.slot, op.timerSrc);
  }

  lemma ReadMadeText(b: seq<bv8>, len: nat, op: Op, p: bv8, q: bv8)
    requires op.Text? && Valid(op) && Holds(b, len, op, p, q)
    ensures ReadAs(FText, b, len) == Some(Canon(op))
  {
  }

  lemma ReadMadeOsdString(b: seq<bv8>, len: nat, op: Op, p: bv8, q: bv8)
    requires op.OsdString? && Valid(op) && Holds(b, len, op, p, q)
    ensures ReadAs(FOsdString, b, len) == Some(Canon(op))
  {
    assert b[2] == b[2..len][0] && b[3..len] == b[2..len][1..];
  }

  lemma ReadMadeBlob(b: seq<bv8>, len: nat, op: Op, p: bv8, q: bv8)
    requires op.Blob? && Valid(op) && Holds(b, len, op, p, q)
    ensures ReadAs(FBlob, b, len) == Some(Canon(op))
  {
  }

  lemma ReadMadeVendorCommandWithId(b: seq<bv8>, len: nat, op: Op, p: bv8, q: bv8)
    requires op.VendorCommandWithId? && Valid(op) && Holds(b, len, op, p, q)
    ensures ReadAs(FVendorCommandWithId, b, len) == Some(Canon(op))
  {
    hide Byte0, Byte1, Byte2, TripleAt, Low24;
    var s := b[2..len];
    assert b[2] == s[0] && b[3] == s[1] && b[4] == s[2] && b[5..len] == s[3..];
    TripleAtBytes(b, 2, op.vendor);
  }

  lemma ReadMadeReportPhysicalAddr(b: seq<bv8>, len: nat, op: Op, p: bv8, q: bv8)
    requires op.ReportPhysicalAddr? && Valid(op) && Holds(b, len, op, p, q)
    ensures ReadAs(FReportPhysicalAddr, b, len) == Some(Canon(op))
  {
    hide Hi, Lo, WordAt;
    var s := b[2..len];
    assert b[2] == s[0] && b[3] == s[1] && b[4] == s[2];
    WordAtBytes(b, 2, op.addr);
  }

  lemma ReadMadeSetMenuLanguage(b: seq<bv8>, len: nat, op: Op, p: bv8, q: bv8)
    requires op.SetMenuLanguage? && Valid(op) && Holds(b, len, op, p, q)
    ensures ReadAs(FSetMenuLanguage, b, len) == Some(Canon(op))
  {
  }

  lemma ReadMadeReportFeatures(b: seq<bv8>, len: nat, op: Op, p: bv8, q: bv8)
    requires op.ReportFeatures? && Valid(op) && Holds(b, len, op, p, q)
    ensures ReadAs(FReportFeatures, b, len) == Some(Canon(op))
  {
    var s := b[2..len];
    assert b[2] == s[0] && b[3] == s[1] && b[4] == s[2] && b[5] == s[3];
  }

  lemma ReadMadeTunerStatus(b: seq<bv8>, len: nat, op: Op, p: bv8, q: bv8)
    requires op.TunerStatus? && Valid(op) && Holds(b, len, op, p, q)
    ensures ReadAs(FTunerStatus, b, len) == Some(Canon(op))
  {
    hide FlagByte, FlagHigh, FlagLow, CanonFlag, ReadAnalogue, ReadDigital, CanonDigital, AnalogueBytes, DigitalBytes;
    var s := b[2..len];
    assert b[2] == s[0] && b[3..3 + |ServiceBytes(op.service)|] == s[1..];
    FlagFields(op.recFlag, op.display);
    ReadService(b, 3, op.service);
  }

  lemma ReadMadeSelectService(b: seq<bv8>, len: nat, op: Op, p: bv8, q: bv8)
    requires op.SelectService? && Valid(op) && Holds(b, len, op, p, q)
    ensures ReadAs(FSelectService, b, len) == Some(Canon(op))
  {
    hide ReadAnalogue, ReadDigital, CanonDigital, AnalogueBytes, DigitalBytes;
    ReadService(b, 2, op.service);
  }

  lemma ReadMadeDeviceVendorId(b: seq<bv8>, len: nat, op: Op, p: bv8, q: bv8)
    requires op.DeviceVendorId? && Valid(op) && Holds(b, len, op, p, q)
    ensures ReadAs(FDeviceVendorId, b, len) == Some(Canon(op))
  {
    hide Byte0, Byte1, Byte2, TripleAt, Low24;
    var s := b[2..len];
    assert b[2] == s[0] && b[3] == s[1] && b[4] == s[2];
    TripleAtBytes(b, 2, op.vendor);
  }

  lemma ReadMadeUserControl(b: seq<bv8>, len: nat, op: Op, p: bv8, q: bv8)
    requires op.UserControl? && Valid(op) && Holds(b, len, op, p, q)
    ensures ReadAs(FUserControl, b, len) == Some(Canon(op))
  {
    hide UiBytes, ReadUi, CanonUi;
    ReadUiBytes(b, len, op.ui);
  }

  lemma ReadMadeFeatureAbort(b: seq<bv8>, len: nat, op: Op, p: bv8, q: bv8)
    requires op.FeatureAbort? && Valid(op) && Holds(b, len, op, p, q)
    ensures ReadAs(FFeatureAbort, b, len) == Some(Canon(op))
  {
    assert b[2] == b[2..len][0] && b[3] == b[2..len][1];
  }

  lemma ReadMadeAudioStatus(b: seq<bv8>, len: nat, op: Op, p: bv8, q: bv8)
    requires op.AudioStatus? && Valid(op) && Holds(b, len, op, p, q)
    ensures ReadAs(FAudioStatus, b, len) == Some(Canon(op))
  {
    hide FlagByte, FlagHigh, FlagLow, CanonFlag;
    assert b[2] == b[2..len][0];
    FlagFields(op.mute, FlagLow(op.volume)); FlagFields(op.mute, op.volume);
  }

  lemma ReadMadeSystemAudioRequest(b: seq<bv8>, len: nat, op: Op, p: bv8, q: bv8)
    requires op.SystemAudioRequest? && Valid(op) && Holds(b, len, op, p, q)
    ensures ReadAs(FSystemAudioRequest, b, len) == Some(Canon(op))
  {
    hide Hi, Lo, WordAt;
    if op.addr != 0xffff {
      assert b[2] == b[2..len][0] && b[3] == b[2..len][1];
      WordAtBytes(b, 2, op.addr);
    }
  }

  lemma ReadMadeReportDescriptors(b: seq<bv8>, len: nat, op: Op, p: bv8, q: bv8)
    requires op.ReportDescriptors? && Valid(op) && Holds(b, len, op, p, q)
    ensures ReadAs(FReportDescriptors, b, len) == Some(Canon(op))
  {
    hide DescriptorBytes, ReadDescriptors, CanonDescriptors;
    ReadDescriptorBytes(b, op.descriptors[..Min(op.num, 4)]);
  }

  lemma ReadMadeRequestDescriptors(b: seq<bv8>, len: nat, op: Op, p: bv8, q: bv8)
    requires op.RequestDescriptors? && Valid(op) && Holds(b, len, op, p, q)
    ensures ReadAs(FRequestDescriptors, b, len) == Some(Canon(op))
  {
    hide FormatByte, High2, Low2, Low6;
    ReadFormats(b[2..len], op.ids[..Min(op.num, 4)], op.codes[..Min(op.num, 4)]);
  }

  lemma ReadMadeReportLatency(b: seq<bv8>, len: nat, op: Op, p: bv8, q: bv8)
    requires op.ReportLatency? && Valid(op) && Holds(b, len, op, p, q)
    ensures ReadAs(FReportLatency, b, len) == Some(Canon(op))
  {
    hide LatencyByte, LatencyMode, LatencyCode, Hi, Lo, WordAt;
    var s := b[2..len];
    assert b[2] == s[0] && b[3] == s[1] && b[4] == s[2] && b[5] == s[3];
    WordAtBytes(b, 2, op.addr);
    if op.compensated == 3 { assert b[6] == s[4]; }
  }

  lemma ReadMadeCdc(b: seq<bv8>, len: nat, op: Op, p: bv8, q: bv8)
    requires op.Cdc? && Valid(op) && Holds(b, len, op, p, q)
    ensures ReadAs(FCdc, b, len) == Some(Canon(op))
  {
    hide CdcBytes, ReadCdc, CanonCdc;
    assert b[4..len] == b[2..len][2..];
    ReadCdcBytes(b, len, op.cdc);
  }

  /** Reading what a call has written yields its canonical form, whatever stands
      behind the message in the buffer. */
  lemma ReadMade(b: seq<bv8>, len: nat, op: Op, p: bv8, q: bv8)
    requires Valid(op) && Effective(op) && Carries(b, len, op, p, q)
    ensures Read(b, len) == Some(Canon(op))
  {
    hide ReadAs, Canon, Operands, Opcode, Valid, Effective, FamilyOf, FamilyOfOp, Body;
    CarriedOperands(b, len, op, p, q);
    FamilyOfOpcode(op);
    ReadAsMade(b, len, op, p, q);
  }

  function FamilyOfOp(op: Op): Family {
    match op
    case Bare(_, _) => FBare
    case OneByte(_, _, _) => FOneByte
    case Address(_, _, _) => FAddress
    case RoutingChange(_, _, _) => FRoutingChange
    case RecordOn(_, _) => FRecordOn
    case TimerStatus(_) => FTimerStatus
    case Timer(_, _, _, _) => FTimer
    case Text(_, _) => FText
    case OsdString(_, _) => FOsdString
    case Blob(_, _, _) => FBlob
    case VendorCommandWithId(_, _, _) => FVendorCommandWithId
    case ReportPhysicalAddr(_, _) => FReportPhysicalAddr
    case SetMenuLanguage(_) => FSetMenuLanguage
    case ReportFeatures(_, _, _, _) => FReportFeatures
    case TunerStatus(_, _, _) => FTunerStatus
    case SelectService(_) => FSelectService
    case DeviceVendorId(_) => FDeviceVendorId
    case UserControl(_) => FUserControl
    case FeatureAbort(_, _) => FFeatureAbort
    case AudioStatus(_, _) => FAudioStatus
    case SystemAudioRequest(_, _) => FSystemAudioRequest
    case ReportDescriptors(_, _) => FReportDescriptors
    case RequestDescriptors(_, _, _, _) => FRequestDescriptors
    case ReportLatency(_, _, _, _, _) => FReportLatency
    case Cdc(_) => FCdc
  }

  lemma FamilyOfTables(b: bv8)
    ensures IsBare(b) ==> FamilyOf(b) == FBare
    ensures IsOneByte(b) ==> FamilyOf(b) == FOneByte
    ensures IsAddress(b) ==> FamilyOf(b) == FAddress
    ensures IsTimer(b) ==> FamilyOf(b) == FTimer
    ensures IsText(b) ==> FamilyOf(b) == FText
    ensures IsBlob(b) ==> FamilyOf(b) == FBlob
  {
  }

  lemma FamilyOfConstants1()
    ensures FamilyOf(MSG_ROUTING_CHANGE) == FRoutingChange
    ensures FamilyOf(MSG_RECORD_ON) == FRecordOn
    ensures FamilyOf(MSG_TIMER_STATUS) == FTimerStatus
    ensures FamilyOf(MSG_SET_OSD_STRING) == FOsdString
  {
  }

  lemma FamilyOfConstants2()
    ensures FamilyOf(MSG_VENDOR_COMMAND_WITH_ID) == FVendorCommandWithId
    ensures FamilyOf(MSG_REPORT_PHYSICAL_ADDR) == FReportPhysicalAddr
    ensures FamilyOf(MSG_SET_MENU_LANGUAGE) == FSetMenuLanguage
    ensures FamilyOf(MSG_REPORT_FEATURES) == FReportFeatures
  {
  }

  lemma FamilyOfConstants3()
    ensures FamilyOf(MSG_TUNER_DEVICE_STATUS) == FTunerStatus
    ensures FamilyOf(MSG_SELECT_ANALOGUE_SERVICE) == FSelectService
    ensures FamilyOf(MSG_SELECT_DIGITAL_SERVICE) == FSelectService
    ensures FamilyOf(MSG_DEVICE_VENDOR_ID) == FDeviceVendorId
  {
  }

  lemma FamilyOfConstants4()
    ensures FamilyOf(MSG_USER_CONTROL_PRESSED) == FUserControl
    ensures FamilyOf(MSG_FEATURE_ABORT) == FFeatureAbort
    ensures FamilyOf(MSG_REPORT_AUDIO_STATUS) == FAudioStatus
    ensures FamilyOf(MSG_SYSTEM_AUDIO_MODE_REQUEST) == FSystemAudioRequest
  {
  }

  lemma FamilyOfConstants5()
    ensures FamilyOf(MSG_REPORT_SHORT_AUDIO_DESCRIPTOR) == FReportDescriptors
    ensures FamilyOf(MSG_REQUEST_SHORT_AUDIO_DESCRIPTOR) == FRequestDescriptors
    ensures FamilyOf(MSG_REPORT_CURRENT_LATENCY) == FReportLatency
    ensures FamilyOf(MSG_CDC_MESSAGE) == FCdc
  {
  }

  /** The opcode tells the builder families apart. */
  lemma FamilyOfOpcode(op: Op)
    requires Valid(op)
    ensures FamilyOf(Opcode(op)) == FamilyOfOp(op)
  {
    hide FamilyOf, IsBare, IsOneByte, IsAddress, IsText, IsBlob;
    FamilyOfTables(Opcode(op));
    FamilyOfConstants1();
    FamilyOfConstants2();
    FamilyOfConstants3();
    FamilyOfConstants4();
    FamilyOfConstants5();
  }

  lemma ReadAsMade(b: seq<bv8>, len: nat, op: Op, p: bv8, q: bv8)
    requires Valid(op) && Holds(b, len, op, p, q)
    ensures ReadAs(FamilyOfOp(op), b, len) == Some(Canon(op))
  {
    hide ReadAs, Canon, Operands, Opcode, Valid, Effective, Holds;
    if op.Bare? {
      ReadMadeBare(b, len, op, p, q);
    } else if op.OneByte? {
      ReadMadeOneByte(b, len, op, p, q);
    } else if op.Address? {
      ReadMadeAddress(b, len, op, p, q);
    } else if op.RoutingChange? {
      ReadMadeRoutingChange(b, len, op, p, q);
    } else if op.RecordOn? {
      ReadMadeRecordOn(b, len, op, p, q);
    } else if op.TimerStatus? {
      ReadMadeTimerStatus(b, len, op, p, q);
    } else if op.Timer? {
      ReadMadeTimer(b, len, op, p, q);
    } else if op.Text? {
      ReadMadeText(b, len, op, p, q);
    } else if op.OsdString? {
      ReadMadeOsdString(b, len, op, p, q);
    } else if op.Blob? {
      ReadMadeBlob(b, len, op, p, q);
    } else if op.VendorCommandWithId? {
      ReadMadeVendorCommandWithId(b, len, op, p, q);
    } else if op.ReportPhysicalAddr? {
      ReadMadeReportPhysicalAddr(b, len, op, p, q);
    } else if op.SetMenuLanguage? {
      ReadMadeSetMenuLanguage(b, len, op, p, q);
    } else if op.ReportFeatures? {
      ReadMadeReportFeatures(b, len, op, p, q);
    } else if op.TunerStatus? {
      ReadMadeTunerStatus(b, len, op, p, q);
    } else if op.SelectService? {
      ReadMadeSelectService(b, len, op, p, q);
    } else if op.DeviceVendorId? {
      ReadMadeDeviceVendorId(b, len, op, p, q);
    } else if op.UserControl? {
      ReadMadeUserControl(b, len, op, p, q);
    } else if op.FeatureAbort? {
      ReadMadeFeatureAbort(b, len, op, p, q);
    } else if op.AudioStatus? {
      ReadMadeAudioStatus(b, len, op, p, q);
    } else if op.SystemAudioRequest? {
      ReadMadeSystemAudioRequest(b, len, op, p, q);
    } else if op.ReportDescriptors? {
      ReadMadeReportDescriptors(b, len, op, p, q);
    } else if op.RequestDescriptors? {
      ReadMadeRequestDescriptors(b, len, op, p, q);
    } else if op.ReportLatency? {
      ReadMadeReportLatency(b, len, op, p, q);
    } else if op.Cdc? {
      ReadMadeCdc(b, len, op, p, q);
    }
  }
}
