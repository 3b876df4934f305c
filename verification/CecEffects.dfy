/** The effect of each builder spelled out store by store. */
module CecEffects {
  import opened CecBytes
  import opened CecOps
  import opened CecWire

  /** `b` after `s` has been copied to offset `at`. */
  function Put(b: Buffer, at: nat, s: seq<bv8>): Buffer
    requires at + |s| <= 16
  {
    b[..at] + s + b[at + |s|..]
  }

  function ReplyOf(wantReply: bool, opcode: bv8): bv8 { if wantReply then opcode else 0 }

  /** The reply field after a builder whose opcode decides whether it has a `reply` argument. */
  function ReplyFrom(m: Msg, opcode: bv8, wantReply: bool): bv8 {
    if ReplyOpcode(opcode) == 0 then m.reply else ReplyOf(wantReply, ReplyOpcode(opcode))
  }

  function TimerReply(set_: bool): bv8 { if set_ then MSG_TIMER_STATUS else MSG_TIMER_CLEARED_STATUS }

  lemma ReplyFromIs(m: Msg, opcode: bv8, wantReply: bool)
    ensures ReplyFrom(m, opcode, wantReply) ==
            if ReplyOpcode(opcode) == 0 then m.reply else ReplyOf(wantReply, ReplyOpcode(opcode))
  {
  }

  lemma Effect(m: Msg, op: Op)
    requires Valid(op) && Effective(op) && Scratch(op) == []
    ensures |Operands(op, m.buf[2], m.buf[3])| <= 14
    ensures Apply(m, op) ==
            Msg(2 + |Operands(op, m.buf[2], m.buf[3])|, m.timeout, ReplyAfter(op, m.reply),
                Splice(m.buf, [Header(op, m.buf[0]), Opcode(op)] + Operands(op, m.buf[2], m.buf[3])))
  {
    BodyFits(op, m.buf[2], m.buf[3]);
    hide Valid, Operands, Opcode, ReplyAfter, Header;
    var h, c, s := Header(op, m.buf[0]), Opcode(op), Operands(op, m.buf[2], m.buf[3]);
    assert [h] + ([c] + s) + [] == [h, c] + s;
  }

  /** The bytes `cec_set_digital_service_id` stores, case by case. */
  lemma DigitalBytesAre(d: Digital)
    ensures DigitalBytes(d) ==
            if d.ByChannel() then
              [DigitalHead(d), ChannelHigh(d.Format(), d.w1), Lo(d.w1), Hi(d.w2), Lo(d.w2), 0, 0]
            else if d.Atsc() then [DigitalHead(d), Hi(d.w0), Lo(d.w0), Hi(d.w1), Lo(d.w1), 0, 0]
            else [DigitalHead(d), Hi(d.w0), Lo(d.w0), Hi(d.w1), Lo(d.w1), Hi(d.w2), Lo(d.w2)]
  {
    hide DigitalHead, ChannelHigh;
  }

  lemma PutDigital(b: Buffer, at: nat, d: Digital)
    requires at + 7 <= 16
    ensures Put(b, at, DigitalBytes(d)) ==
            if d.ByChannel() then
              b[at := DigitalHead(d)][at + 1 := ChannelHigh(d.Format(), d.w1)][at + 2 := Lo(d.w1)]
              [at + 3 := Hi(d.w2)][at + 4 := Lo(d.w2)][at + 5 := 0][at + 6 := 0]
            else if d.Atsc() then
              b[at := DigitalHead(d)][at + 1 := Hi(d.w0)][at + 2 := Lo(d.w0)]
              [at + 3 := Hi(d.w1)][at + 4 := Lo(d.w1)][at + 5 := 0][at + 6 := 0]
            else
              b[at := DigitalHead(d)][at + 1 := Hi(d.w0)][at + 2 := Lo(d.w0)]
              [at + 3 := Hi(d.w1)][at + 4 := Lo(d.w1)][at + 5 := Hi(d.w2)][at + 6 := Lo(d.w2)]
  {
    hide DigitalHead, ChannelHigh, Hi, Lo, DigitalBytes;
    DigitalBytesAre(d);
  }

  lemma PutAnalogue(b: Buffer, at: nat, a: Analogue)
    requires at + 4 <= 16
    ensures Put(b, at, AnalogueBytes(a)) ==
            b[at := a.bcastType][at + 1 := Hi(a.freq)][at + 2 := Lo(a.freq)][at + 3 := a.system]
  {
    hide Hi, Lo;
  }

  lemma PutSlot(b: Buffer, t: TimerSlot)
    ensures Put(b, 2, SlotBytes(t)) ==
            b[2 := t.day][3 := t.month][4 := Bcd(t.startHr)][5 := Bcd(t.startMin)]
            [6 := Bcd(t.durHr)][7 := Bcd(t.durMin)][8 := t.recSeq]
  {
    hide Bcd;
  }

  lemma UiBytesAre(u: UiCommand)
    ensures UiBytes(u) ==
            if u.hasArg && u.TakesByte() then [u.cmd, u.first]
            else if u.hasArg && u.TakesChannel() then
              [u.cmd, ChannelHigh(u.first, u.major), Lo(u.major), Hi(u.minor), Lo(u.minor)]
            else [u.cmd]
  {
    hide ChannelHigh;
  }

  lemma PrefixFits(text: seq<bv8>, n: nat)
    ensures StrLen(text) <= |text|
    ensures Min(StrLen(text), n) == if StrLen(text) > n then n else StrLen(text)
  {
  }

  lemma MinIs(a: nat, b: nat)
    ensures Min(a, b) == if a > b then b else a
  {
  }

  lemma DescriptorsStart(b: Buffer, ds: seq<bv32>)
    ensures Put(b, 2, DescriptorBytes(ds[..0])) == b
  {
  }

  lemma DescriptorsStep(b: Buffer, ds: seq<bv32>, i: nat)
    requires i < |ds| && i < 4
    ensures Put(b, 2, DescriptorBytes(ds[..i + 1])) ==
            Put(b, 2, DescriptorBytes(ds[..i]))
            [2 + i * 3 := Byte2(ds[i])][3 + i * 3 := Byte1(ds[i])][4 + i * 3 := Byte0(ds[i])]
  {
    hide Byte2, Byte1, Byte0;
    assert ds[..i + 1][..i] == ds[..i];
    assert DescriptorBytes(ds[..i + 1]) == DescriptorBytes(ds[..i]) + [Byte2(ds[i]), Byte1(ds[i]), Byte0(ds[i])];
  }

  lemma FormatsStart(b: Buffer, ids: seq<bv8>, codes: seq<bv8>)
    ensures Put(b, 2, FormatBytes(ids[..0], codes[..0])) == b
  {
  }

  lemma FormatsStep(b: Buffer, ids: seq<bv8>, codes: seq<bv8>, i: nat)
    requires i < |ids| && i < |codes| && i < 4
    ensures Put(b, 2, FormatBytes(ids[..i + 1], codes[..i + 1])) ==
            Put(b, 2, FormatBytes(ids[..i], codes[..i]))[2 + i := FormatByte(ids[i], codes[i])]
  {
    hide FormatByte;
    assert FormatBytes(ids[..i + 1], codes[..i + 1]) ==
           FormatBytes(ids[..i], codes[..i]) + [FormatByte(ids[i], codes[i])];
  }

  lemma CdcEffect(m: Msg, c: CdcOp)
    ensures Apply(m, Cdc(c)) ==
            Msg(4 + |CdcBytes(c)|, m.timeout, m.reply,
                Put(m.buf[0 := AsBroadcast(m.buf[0])][1 := MSG_CDC_MESSAGE], 4, CdcBytes(c)))
  {
    hide AsBroadcast, Apply, CdcBytes;
    Effect(m, Cdc(c));
  }

  function AddrTail(a3: bv16, a4: bv16, a5: bv16): (s: seq<bv8>)
    ensures |s| <= 6
  {
    if a3 == PHYS_ADDR_INVALID then []
    else if a4 == PHYS_ADDR_INVALID then [Hi(a3), Lo(a3)]
    else if a5 == PHYS_ADDR_INVALID then [Hi(a3), Lo(a3), Hi(a4), Lo(a4)]
    else [Hi(a3), Lo(a3), Hi(a4), Lo(a4), Hi(a5), Lo(a5)]
  }

  lemma OptionalAddrs(a3: bv16, a4: bv16, a5: bv16)
    ensures OptionalAddrBytes([a3, a4, a5]) == AddrTail(a3, a4, a5)
  {
    assert [a3, a4, a5][1..] == [a4, a5] && [a4, a5][1..] == [a5] && [a5][1..] == [];
    assert OptionalAddrBytes([a5]) == if a5 == PHYS_ADDR_INVALID then [] else [Hi(a5), Lo(a5)];
    assert OptionalAddrBytes([a4, a5]) ==
           if a4 == PHYS_ADDR_INVALID then [] else [Hi(a4), Lo(a4)] + OptionalAddrBytes([a5]);
  }

  function PutTail(b: Buffer, a3: bv16, a4: bv16, a5: bv16): Buffer {
    Put(b, 10, AddrTail(a3, a4, a5))
  }

  lemma PutTailIs(b: Buffer, a3: bv16, a4: bv16, a5: bv16)
    ensures PutTail(b, a3, a4, a5) ==
            if a3 == PHYS_ADDR_INVALID then b
            else if a4 == PHYS_ADDR_INVALID then b[10 := Hi(a3)][11 := Lo(a3)]
            else if a5 == PHYS_ADDR_INVALID then b[10 := Hi(a3)][11 := Lo(a3)][12 := Hi(a4)][13 := Lo(a4)]
            else b[10 := Hi(a3)][11 := Lo(a3)][12 := Hi(a4)][13 := Lo(a4)][14 := Hi(a5)][15 := Lo(a5)]
    ensures |AddrTail(a3, a4, a5)| ==
            if a3 == PHYS_ADDR_INVALID then 0
            else if a4 == PHYS_ADDR_INVALID then 2
            else if a5 == PHYS_ADDR_INVALID then 4
            else 6
  {
    hide Hi, Lo;
  }

  lemma BareEffect(m: Msg, opcode: bv8, wantReply: bool)
    requires IsBare(opcode) && MayAsk(opcode, wantReply)
    ensures Apply(m, Bare(opcode, wantReply)) ==
            Msg(2, m.timeout, ReplyFrom(m, opcode, wantReply),
                m.buf[0 := if IsBroadcast(opcode) then AsBroadcast(m.buf[0]) else m.buf[0]][1 := opcode])
  {
    hide AsBroadcast, Apply, IsBare, IsBroadcast, ReplyOpcode;
    Effect(m, Bare(opcode, wantReply));
  }

  lemma OneByteEffect(m: Msg, opcode: bv8, wantReply: bool, operand: bv8)
    requires IsOneByte(opcode) && MayAsk(opcode, wantReply)
    ensures Apply(m, OneByte(opcode, wantReply, operand)) ==
            Msg(3, m.timeout, ReplyFrom(m, opcode, wantReply),
                m.buf[1 := opcode][2 := operand])
  {
    hide AsBroadcast, Apply, ReplyOpcode;
    Effect(m, OneByte(opcode, wantReply, operand));
  }

  lemma AddressEffect(m: Msg, opcode: bv8, wantReply: bool, addr: bv16)
    requires IsAddress(opcode) && MayAsk(opcode, wantReply)
    ensures Apply(m, Address(opcode, wantReply, addr)) ==
            Msg(4, m.timeout, ReplyFrom(m, opcode, wantReply),
                m.buf[0 := if IsBroadcast(opcode) then AsBroadcast(m.buf[0]) else m.buf[0]][1 := opcode]
                  [2 := Hi(addr)][3 := Lo(addr)])
  {
    hide AsBroadcast, Apply, IsAddress, IsBroadcast, ReplyOpcode, Hi, Lo;
    Effect(m, Address(opcode, wantReply, addr));
  }

  lemma RoutingChangeEffect(m: Msg, wantReply: bool, from: bv16, to: bv16)
    ensures Apply(m, RoutingChange(wantReply, from, to)) ==
            Msg(6, m.timeout, ReplyOf(wantReply, MSG_ROUTING_INFORMATION),
                m.buf[0 := AsBroadcast(m.buf[0])][1 := MSG_ROUTING_CHANGE][2 := Hi(from)][3 := Lo(from)]
                  [4 := Hi(to)][5 := Lo(to)])
  {
    hide AsBroadcast, Apply, Hi, Lo;
    Effect(m, RoutingChange(wantReply, from, to));
  }

  lemma FeatureAbortEffect(m: Msg, aborted: bv8, reason: bv8)
    ensures Apply(m, FeatureAbort(aborted, reason)) ==
            Msg(4, m.timeout, m.reply,
                m.buf[1 := MSG_FEATURE_ABORT][2 := aborted][3 := reason])
  {
    hide AsBroadcast, Apply;
    Effect(m, FeatureAbort(aborted, reason));
  }

  lemma ReportPhysicalAddrEffect(m: Msg, addr: bv16, devType: bv8)
    ensures Apply(m, ReportPhysicalAddr(addr, devType)) ==
            Msg(5, m.timeout, m.reply,
                m.buf[0 := AsBroadcast(m.buf[0])][1 := MSG_REPORT_PHYSICAL_ADDR][2 := Hi(addr)][3 := Lo(addr)]
                  [4 := devType])
  {
    hide AsBroadcast, Apply, Hi, Lo;
    Effect(m, ReportPhysicalAddr(addr, devType));
  }

  lemma ReportFeaturesEffect(m: Msg, version: bv8, devTypes: bv8, rcProfile: bv8, devFeatures: bv8)
    ensures Apply(m, ReportFeatures(version, devTypes, rcProfile, devFeatures)) ==
            Msg(6, m.timeout, m.reply,
                m.buf[0 := AsBroadcast(m.buf[0])][1 := MSG_REPORT_FEATURES][2 := version][3 := devTypes]
                  [4 := rcProfile][5 := devFeatures])
  {
    hide AsBroadcast, Apply;
    Effect(m, ReportFeatures(version, devTypes, rcProfile, devFeatures));
  }

  lemma DeviceVendorIdEffect(m: Msg, vendor: bv32)
    ensures Apply(m, DeviceVendorId(vendor)) ==
            Msg(5, m.timeout, m.reply,
                m.buf[0 := AsBroadcast(m.buf[0])][1 := MSG_DEVICE_VENDOR_ID][2 := Byte2(vendor)]
                  [3 := Byte1(vendor)][4 := Byte0(vendor)])
  {
    hide AsBroadcast, Apply, Byte0, Byte1, Byte2;
    Effect(m, DeviceVendorId(vendor));
  }

  lemma TextEffect(m: Msg, opcode: bv8, text: seq<bv8>)
    requires IsText(opcode) && 0 !in text
    ensures Apply(m, Text(opcode, text)) ==
            Msg(2 + Min(StrLen(text), 14), m.timeout, m.reply,
                Put(m.buf[1 := opcode], 2, text[..Min(StrLen(text), 14)]))
  {
    hide AsBroadcast, Apply, StrLen;
    Effect(m, Text(opcode, text));
    PrefixFits(text, 14);
  }

  lemma OsdStringEffect(m: Msg, ctl: bv8, text: seq<bv8>)
    requires 0 !in text
    ensures Apply(m, OsdString(ctl, text)) ==
            Msg(3 + Min(StrLen(text), 13), m.timeout, m.reply,
                Put(m.buf[1 := MSG_SET_OSD_STRING][2 := ctl], 3, text[..Min(StrLen(text), 13)]))
  {
    hide AsBroadcast, Apply, StrLen;
    Effect(m, OsdString(ctl, text));
    PrefixFits(text, 13);
  }

  lemma BlobEffect(m: Msg, opcode: bv8, size: u8, data: seq<bv8>)
    requires IsBlob(opcode) && Min(size, 14) <= |data|
    ensures Apply(m, Blob(opcode, size, data)) ==
            Msg(2 + Min(size, 14), m.timeout, m.reply,
                Put(m.buf[1 := opcode], 2, data[..Min(size, 14)]))
  {
    hide AsBroadcast, Apply;
    Effect(m, Blob(opcode, size, data));
  }

  lemma VendorCommandWithIdEffect(m: Msg, vendor: bv32, size: u8, data: seq<bv8>)
    requires Min(size, 11) <= |data|
    ensures Apply(m, VendorCommandWithId(vendor, size, data)) ==
            Msg(5 + Min(size, 11), m.timeout, m.reply,
                Put(m.buf[1 := MSG_VENDOR_COMMAND_WITH_ID][2 := Byte2(vendor)][3 := Byte1(vendor)]
                  [4 := Byte0(vendor)], 5, data[..Min(size, 11)]))
  {
    hide AsBroadcast, Apply, Byte0, Byte1, Byte2;
    Effect(m, VendorCommandWithId(vendor, size, data));
  }

  lemma SetMenuLanguageEffect(m: Msg, language: seq<bv8>)
    requires |language| >= 3
    ensures Apply(m, SetMenuLanguage(language)) ==
            Msg(5, m.timeout, m.reply,
                Put(m.buf[0 := AsBroadcast(m.buf[0])][1 := MSG_SET_MENU_LANGUAGE], 2, language[..3]))
  {
    hide AsBroadcast, Apply;
    Effect(m, SetMenuLanguage(language));
  }

  /** The effect of one arm of `cec_msg_record_on` called on its own. */
  function RecordArm(m: Msg, src: RecordSrc): Msg
    requires !src.UnknownSrc?
  {
    Apply(m, RecordOn(false, src)).(reply := m.reply)
  }

  lemma RecordOwnEffect(m: Msg)
    ensures RecordArm(m, Own) == Msg(3, m.timeout, m.reply,
              m.buf[1 := MSG_RECORD_ON][2 := RECORD_SRC_OWN])
  {
    hide AsBroadcast, Apply;
    Effect(m, RecordOn(false, Own));
  }

  lemma RecordDigitalEffect(m: Msg, d: Digital)
    ensures RecordArm(m, DigitalSrc(d)) == Msg(10, m.timeout, m.reply,
              Put(m.buf[1 := MSG_RECORD_ON][2 := RECORD_SRC_DIGITAL], 3, DigitalBytes(d)))
  {
    hide AsBroadcast, Apply, DigitalBytes;
    Effect(m, RecordOn(false, DigitalSrc(d)));
  }

  lemma RecordAnalogueEffect(m: Msg, a: Analogue)
    ensures RecordArm(m, AnalogueSrc(a)) == Msg(7, m.timeout, m.reply,
              Put(m.buf[1 := MSG_RECORD_ON][2 := RECORD_SRC_ANALOG], 3, AnalogueBytes(a)))
  {
    hide AsBroadcast, Apply, AnalogueBytes;
    Effect(m, RecordOn(false, AnalogueSrc(a)));
  }

  lemma RecordPlugEffect(m: Msg, plug: bv8)
    ensures RecordArm(m, RecordSrc.Plug(plug)) == Msg(4, m.timeout, m.reply,
              m.buf[1 := MSG_RECORD_ON][2 := RECORD_SRC_EXT_PLUG][3 := plug])
  {
    hide AsBroadcast, Apply;
    Effect(m, RecordOn(false, RecordSrc.Plug(plug)));
  }

  lemma RecordExtAddressEffect(m: Msg, addr: bv16)
    ensures RecordArm(m, ExtAddress(addr)) == Msg(5, m.timeout, m.reply,
              m.buf[1 := MSG_RECORD_ON][2 := RECORD_SRC_EXT_PHYS_ADDR][3 := Hi(addr)][4 := Lo(addr)])
  {
    hide AsBroadcast, Apply, Hi, Lo;
    Effect(m, RecordOn(false, ExtAddress(addr)));
  }

  /** `cec_msg_record_on` is its arm followed by the store to the reply field; a
      source type outside the switch leaves only that store. */
  lemma RecordOnArms(m: Msg, wantReply: bool, src: RecordSrc)
    requires Valid(RecordOn(wantReply, src))
    ensures Apply(m, RecordOn(wantReply, src)) ==
            (if src.UnknownSrc? then m else RecordArm(m, src)).(reply := ReplyOf(wantReply, MSG_RECORD_STATUS))
  {
    hide AsBroadcast, RecordSrcBytes;
    if src.UnknownSrc? {
      assert Splice(m.buf, [m.buf[0]]) == m.buf;
    } else {
      Effect(m, RecordOn(wantReply, src));
      Effect(m, RecordOn(false, src));
    }
  }

  lemma TunerAnalogueEffect(m: Msg, recFlag: bv8, display: bv8, a: Analogue)
    ensures Apply(m, TunerStatus(recFlag, display, AnalogueService(a))) ==
            Msg(7, m.timeout, m.reply,
                Put(m.buf[1 := MSG_TUNER_DEVICE_STATUS][2 := FlagByte(recFlag, display)], 3, AnalogueBytes(a)))
  {
    hide AsBroadcast, Apply, FlagByte, AnalogueBytes;
    Effect(m, TunerStatus(recFlag, display, AnalogueService(a)));
  }

  lemma TunerDigitalEffect(m: Msg, recFlag: bv8, display: bv8, d: Digital)
    ensures Apply(m, TunerStatus(recFlag, display, DigitalService(d))) ==
            Msg(10, m.timeout, m.reply,
                Put(m.buf[1 := MSG_TUNER_DEVICE_STATUS][2 := FlagByte(recFlag, display)], 3, DigitalBytes(d)))
  {
    hide AsBroadcast, Apply, FlagByte, DigitalBytes;
    Effect(m, TunerStatus(recFlag, display, DigitalService(d)));
  }

  lemma SelectAnalogueEffect(m: Msg, a: Analogue)
    ensures Apply(m, SelectService(AnalogueService(a))) ==
            Msg(6, m.timeout, m.reply,
                Put(m.buf[1 := MSG_SELECT_ANALOGUE_SERVICE], 2, AnalogueBytes(a)))
  {
    hide AsBroadcast, Apply, AnalogueBytes;
    Effect(m, SelectService(AnalogueService(a)));
  }

  lemma SelectDigitalEffect(m: Msg, d: Digital)
    ensures Apply(m, SelectService(DigitalService(d))) ==
            Msg(9, m.timeout, m.reply,
                Put(m.buf[1 := MSG_SELECT_DIGITAL_SERVICE], 2, DigitalBytes(d)))
  {
    hide AsBroadcast, Apply, DigitalBytes;
    Effect(m, SelectService(DigitalService(d)));
  }

  lemma TimerStatusEffect(m: Msg, t: TimerInfo)
    ensures Apply(m, TimerStatus(t)) ==
            Msg(if HasDuration(t) then 5 else 3, m.timeout, m.reply,
                if HasDuration(t) then m.buf[1 := MSG_TIMER_STATUS][2 := TimerInfoByte(t)][3 := Bcd(t.hr)]
                  [4 := Bcd(t.min)]
              else m.buf[1 := MSG_TIMER_STATUS][2 := TimerInfoByte(t)])
  {
    hide AsBroadcast, Apply, HasDuration, TimerInfoByte, Bcd;
    Effect(m, TimerStatus(t));
  }

  lemma AnalogueTimerEffect(m: Msg, set_: bool, wantReply: bool, t: TimerSlot, a: Analogue)
    ensures Apply(m, Timer(set_, wantReply, t, AnalogueTimer(a))) ==
            Msg(13, m.timeout, ReplyOf(wantReply, TimerReply(set_)),
                Put(Put(m.buf[1 := TimerOpcode(set_, AnalogueTimer(a))], 2, SlotBytes(t)), 9, AnalogueBytes(a)))
  {
    hide AsBroadcast, Apply, SlotBytes, AnalogueBytes;
    Effect(m, Timer(set_, wantReply, t, AnalogueTimer(a)));
  }

  lemma DigitalTimerEffect(m: Msg, set_: bool, wantReply: bool, t: TimerSlot, d: Digital)
    ensures Apply(m, Timer(set_, wantReply, t, DigitalTimer(d))) ==
            Msg(16, m.timeout, ReplyOf(wantReply, TimerReply(set_)),
                Put(Put(m.buf[1 := TimerOpcode(set_, DigitalTimer(d))], 2, SlotBytes(t)), 9, DigitalBytes(d)))
  {
    hide AsBroadcast, Apply, SlotBytes, DigitalBytes;
    Effect(m, Timer(set_, wantReply, t, DigitalTimer(d)));
  }

  lemma ExtTimerEffect(m: Msg, set_: bool, wantReply: bool, t: TimerSlot, spec: bv8, plug: bv8, addr: bv16)
    ensures Apply(m, Timer(set_, wantReply, t, ExtTimer(spec, plug, addr))) ==
            Msg(13, m.timeout, ReplyOf(wantReply, TimerReply(set_)),
                Put(m.buf[1 := TimerOpcode(set_, ExtTimer(spec, plug, addr))], 2, SlotBytes(t))[9 := spec]
                  [10 := plug][11 := Hi(addr)][12 := Lo(addr)])
  {
    hide AsBroadcast, Apply, SlotBytes, Hi, Lo;
    Effect(m, Timer(set_, wantReply, t, ExtTimer(spec, plug, addr)));
  }

  lemma UserControlEffect(m: Msg, u: UiCommand)
    ensures Apply(m, UserControl(u)) ==
            Msg(if u.hasArg && u.TakesByte() then 4 else if u.hasArg && u.TakesChannel() then 7 else 3, m.timeout,
              m.reply,
                if u.hasArg && u.TakesByte() then m.buf[1 := MSG_USER_CONTROL_PRESSED][2 := u.cmd][3 := u.first]
              else if u.hasArg && u.TakesChannel()
              then m.buf[1 := MSG_USER_CONTROL_PRESSED][2 := u.cmd]
                   [3 := ChannelHigh(u.first, u.major)][4 := Lo(u.major)][5 := Hi(u.minor)][6 := Lo(u.minor)]
              else m.buf[1 := MSG_USER_CONTROL_PRESSED][2 := u.cmd])
  {
    hide AsBroadcast, Apply, ChannelHigh, UiBytes;
    Effect(m, UserControl(u));
    UiBytesAre(u);
  }

  lemma AudioStatusEffect(m: Msg, mute: bv8, volume: bv8)
    ensures Apply(m, AudioStatus(mute, volume)) ==
            Msg(3, m.timeout, m.reply,
                m.buf[1 := MSG_REPORT_AUDIO_STATUS][2 := FlagByte(mute, FlagLow(volume))])
  {
    hide AsBroadcast, Apply, FlagByte, FlagLow;
    Effect(m, AudioStatus(mute, volume));
  }

  /** The address is stored even when the message ends before it. */
  lemma SystemAudioRequestEffect(m: Msg, wantReply: bool, addr: bv16)
    ensures Apply(m, SystemAudioRequest(wantReply, addr)) ==
            Msg(if addr == 0xffff then 2 else 4, m.timeout, ReplyOf(wantReply, MSG_SET_SYSTEM_AUDIO_MODE),
                m.buf[1 := MSG_SYSTEM_AUDIO_MODE_REQUEST][2 := Hi(addr)][3 := Lo(addr)])
  {
    hide AsBroadcast;
  }

  lemma ReportDescriptorsEffect(m: Msg, num: u8, descriptors: seq<bv32>)
    requires Min(num, 4) <= |descriptors|
    ensures Apply(m, ReportDescriptors(num, descriptors)) ==
            Msg(2 + 3 * Min(num, 4), m.timeout, m.reply,
                Put(m.buf[1 := MSG_REPORT_SHORT_AUDIO_DESCRIPTOR], 2, DescriptorBytes(descriptors[..Min(num, 4)])))
  {
    hide AsBroadcast, Apply, DescriptorBytes;
    Effect(m, ReportDescriptors(num, descriptors));
  }

  lemma RequestDescriptorsEffect(m: Msg, wantReply: bool, num: u8, ids: seq<bv8>, codes: seq<bv8>)
    requires Min(num, 4) <= |ids| && Min(num, 4) <= |codes|
    ensures Apply(m, RequestDescriptors(wantReply, num, ids, codes)) ==
            Msg(2 + Min(num, 4), m.timeout, ReplyOf(wantReply, MSG_REPORT_SHORT_AUDIO_DESCRIPTOR),
                Put(m.buf[1 := MSG_REQUEST_SHORT_AUDIO_DESCRIPTOR], 2, FormatBytes(ids[..Min(num, 4)],
                  codes[..Min(num, 4)])))
  {
    hide AsBroadcast, Apply, FormatBytes;
    Effect(m, RequestDescriptors(wantReply, num, ids, codes));
  }

  lemma ReportLatencyEffect(m: Msg, addr: bv16, video: bv8, low: bv8, comp: bv8, delay: bv8)
    ensures Apply(m, ReportLatency(addr, video, low, comp, delay)) ==
            Msg(if comp == 3 then 7 else 6, m.timeout, m.reply,
                if comp == 3 then m.buf[0 := AsBroadcast(m.buf[0])][1 := MSG_REPORT_CURRENT_LATENCY]
                  [2 := Hi(addr)][3 := Lo(addr)]
                                [4 := video][5 := LatencyByte(low, comp)][6 := delay]
              else m.buf[0 := AsBroadcast(m.buf[0])][1 := MSG_REPORT_CURRENT_LATENCY][2 := Hi(addr)]
                [3 := Lo(addr)]
                   [4 := video][5 := LatencyByte(low, comp)])
  {
    hide AsBroadcast, Apply, LatencyByte, Hi, Lo;
    Effect(m, ReportLatency(addr, video, low, comp, delay));
  }

  lemma HecInquireStateEffect(m: Msg, a1: bv16, a2: bv16)
    ensures Apply(m, Cdc(HecInquireState(a1, a2))) ==
            Msg(9, m.timeout, m.reply,
                m.buf[0 := AsBroadcast(m.buf[0])][1 := MSG_CDC_MESSAGE]
              [4 := CDC_HEC_INQUIRE_STATE][5 := Hi(a1)][6 := Lo(a1)][7 := Hi(a2)][8 := Lo(a2)])
  {
    hide AsBroadcast, Apply, Hi, Lo;
    CdcEffect(m, HecInquireState(a1, a2));
  }

  lemma HecReportStateEffect(m: Msg, target: bv16, hec: bv8, host: bv8, enc: bv8, err: bv8, hasField: bool,
    field: bv16)
    ensures Apply(m, Cdc(HecReportState(target, hec, host, enc, err, hasField, field))) ==
            Msg(if hasField then 10 else 8, m.timeout, m.reply,
                if hasField then m.buf[0 := AsBroadcast(m.buf[0])][1 := MSG_CDC_MESSAGE]
                                [4 := CDC_HEC_REPORT_STATE][5 := Hi(target)][6 := Lo(target)]
                                  [7 := HecStateByte(hec, host, enc, err)]
                                [8 := Hi(field)][9 := Lo(field)]
              else m.buf[0 := AsBroadcast(m.buf[0])][1 := MSG_CDC_MESSAGE]
                   [4 := CDC_HEC_REPORT_STATE][5 := Hi(target)][6 := Lo(target)]
                     [7 := HecStateByte(hec, host, enc, err)])
  {
    hide AsBroadcast, Apply, Hi, Lo, HecStateByte;
    CdcEffect(m, HecReportState(target, hec, host, enc, err, hasField, field));
  }

  lemma HecSetStateEffect(m: Msg, a1: bv16, a2: bv16, state: bv8, a3: bv16, a4: bv16, a5: bv16)
    ensures Apply(m, Cdc(HecSetState(a1, a2, state, a3, a4, a5))) ==
            Msg(10 + |AddrTail(a3, a4, a5)|, m.timeout, m.reply,
                PutTail(m.buf[0 := AsBroadcast(m.buf[0])][1 := MSG_CDC_MESSAGE][4 := CDC_HEC_INQUIRE_STATE]
              [5 := Hi(a1)][6 := Lo(a1)][7 := Hi(a2)][8 := Lo(a2)][9 := state],
              a3, a4, a5))
  {
    hide AsBroadcast, Apply, Hi, Lo, AddrTail;
    CdcEffect(m, HecSetState(a1, a2, state, a3, a4, a5));
    OptionalAddrs(a3, a4, a5);
  }

  lemma HecSetStateAdjacentEffect(m: Msg, a1: bv16, state: bv8)
    ensures Apply(m, Cdc(HecSetStateAdjacent(a1, state))) ==
            Msg(8, m.timeout, m.reply,
                m.buf[0 := AsBroadcast(m.buf[0])][1 := MSG_CDC_MESSAGE]
              [4 := CDC_HEC_SET_STATE_ADJACENT][5 := Hi(a1)][6 := Lo(a1)][7 := state])
  {
    hide AsBroadcast, Apply, Hi, Lo;
    CdcEffect(m, HecSetStateAdjacent(a1, state));
  }

  lemma HecRequestDeactivationEffect(m: Msg, a1: bv16, a2: bv16, a3: bv16)
    ensures Apply(m, Cdc(HecRequestDeactivation(a1, a2, a3))) ==
            Msg(11, m.timeout, m.reply,
                m.buf[0 := AsBroadcast(m.buf[0])][1 := MSG_CDC_MESSAGE]
              [4 := CDC_HEC_REQUEST_DEACTIVATION][5 := Hi(a1)][6 := Lo(a1)][7 := Hi(a2)][8 := Lo(a2)]
                [9 := Hi(a3)][10 := Lo(a3)])
  {
    hide AsBroadcast, Apply, Hi, Lo;
    CdcEffect(m, HecRequestDeactivation(a1, a2, a3));
  }

  lemma HecNotifyAliveEffect(m: Msg)
    ensures Apply(m, Cdc(HecNotifyAlive)) ==
            Msg(5, m.timeout, m.reply,
                m.buf[0 := AsBroadcast(m.buf[0])][1 := MSG_CDC_MESSAGE]
              [4 := CDC_HEC_NOTIFY_ALIVE])
  {
    hide AsBroadcast, Apply, Hi, Lo;
    CdcEffect(m, HecNotifyAlive);
  }

  lemma HecDiscoverEffect(m: Msg)
    ensures Apply(m, Cdc(HecDiscover)) ==
            Msg(5, m.timeout, m.reply,
                m.buf[0 := AsBroadcast(m.buf[0])][1 := MSG_CDC_MESSAGE]
              [4 := CDC_HEC_DISCOVER])
  {
    hide AsBroadcast, Apply, Hi, Lo;
    CdcEffect(m, HecDiscover);
  }

  lemma HpdSetStateEffect(m: Msg, port: bv8, hpd: bv8)
    ensures Apply(m, Cdc(HpdSetState(port, hpd))) ==
            Msg(6, m.timeout, m.reply,
                m.buf[0 := AsBroadcast(m.buf[0])][1 := MSG_CDC_MESSAGE]
              [4 := CDC_HPD_SET_STATE][5 := NibbleByte(port, hpd)])
  {
    hide AsBroadcast, Apply, Hi, Lo, NibbleByte;
    CdcEffect(m, HpdSetState(port, hpd));
  }

  lemma HpdReportStateEffect(m: Msg, hpd: bv8, hpdError: bv8)
    ensures Apply(m, Cdc(HpdReportState(hpd, hpdError))) ==
            Msg(6, m.timeout, m.reply,
                m.buf[0 := AsBroadcast(m.buf[0])][1 := MSG_CDC_MESSAGE]
              [4 := CDC_HPD_REPORT_STATE][5 := NibbleByte(hpd, hpdError)])
  {
    hide AsBroadcast, Apply, Hi, Lo, NibbleByte;
    CdcEffect(m, HpdReportState(hpd, hpdError));
  }
}
