/** `struct cec_msg` and the helpers that write it in place.  Every builder has
exactly the effect `Apply` of its call on the whole structure.  The expressions
stored (`Hi`, `Bcd`, `FlagByte`, ...) are functions of `CecBytes` and `CecWire`;
each method performs the stores in the order of the C code. */
module CecMessages {
  import opened CecBytes
  import opened CecOps
  import opened CecWire
  import opened CecEffects

  class CecMessage {
    var len: u32
    var timeout: u32
    var reply: bv8
    const msg: array<bv8>

    ghost function State(): Msg
      reads this, msg
      requires msg.Length == 16
    {
      Msg(len, timeout, reply, msg[..])
    }

    lemma StateIs()
      requires msg.Length == 16
      ensures State() == Msg(len, timeout, reply, msg[..])
    {
    }

    /** `cec_msg_init` on fresh storage. */
    constructor (initiator: bv8, destination: bv8)
      ensures msg.Length == 16 && fresh(msg)
      ensures State() == Init(initiator, destination)
    {
      len, timeout, reply := 1, 0, 0;
      msg := new bv8[16](_ => 0);
      new;
      msg[0] := AddressPair(initiator, destination);
      assert msg[..] == ZEROED[0 := AddressPair(initiator, destination)];
    }

    /** `cec_msg_init` on a structure already in use. */
    method Initialize(initiator: bv8, destination: bv8)
      requires msg.Length == 16
      modifies this, msg
      ensures State() == Init(initiator, destination)
    {
      len, timeout, reply := 0, 0, 0;
      forall i | 0 <= i < 16 { msg[i] := 0; }
      msg[0] := AddressPair(initiator, destination);
      len := 1;
      assert msg[..] == ZEROED[0 := AddressPair(initiator, destination)];
    }

    /** `cec_msg_set_reply_to`; `orig` may be this very message. */
    method SetReplyTo(orig: CecMessage)
      requires msg.Length == 16 && orig.msg.Length == 16
      modifies this, msg
      ensures State() == ReplyTo(old(State()), old(orig.State()))
    {
      hide AddressPair, Initiator, Destination;
      msg[0] := AddressPair(Destination(orig.msg[0]), Initiator(orig.msg[0]));
      reply, timeout := 0, 0;
      assert msg[..] == old(msg[..])[0 := ReplyHeader(old(orig.msg[0]))];
    }

    /** `cec_msg_reply_feature_abort`: a reply to the message itself, then a
        feature abort that names the old opcode. */
    method ReplyFeatureAbort(reason: bv8)
      requires msg.Length == 16
      modifies this, msg
      ensures State() == Apply(ReplyTo(old(State()), old(State())), FeatureAbort(old(msg[1]), reason))
    {
      hide *;
      ghost var m := ReplyTo(State(), State());
      ReplyToFields(State(), State());
      StateIs();
      SetReplyTo(this);
      StateIs();
      len := 4;
      msg[2] := msg[1];
      msg[3] := reason;
      msg[1] := MSG_FEATURE_ABORT;
      StateIs();
      FeatureAbortEffect(m, old(msg[1]), reason);
      assert msg[..] == m.buf[1 := MSG_FEATURE_ABORT][2 := old(msg[1])][3 := reason];
    }

    /** `memcpy(msg->msg + at, src, size)`. */
    method CopyIn(at: nat, src: seq<bv8>, size: nat)
      requires msg.Length == 16 && size <= |src| && at + size <= 16
      modifies msg
      ensures msg[..] == Put(old(msg[..]), at, src[..size])
    {
      forall i | 0 <= i < size { msg[at + i] := src[i]; }
    }

    // ---------- Builders without operands, or with copied operands ----------

    /** The 26 builders that write only their opcode. */
    method BuildBare(opcode: bv8, wantReply: bool)
      requires msg.Length == 16 && IsBare(opcode) && MayAsk(opcode, wantReply)
      modifies this, msg
      ensures State() == Apply(old(State()), Bare(opcode, wantReply))
    {
      hide *;
      ghost var m := State();
      StateIs();
      len := 2;
      if IsBroadcast(opcode) { msg[0] := AsBroadcast(msg[0]); }
      msg[1] := opcode;
      if ReplyOpcode(opcode) != 0 { reply := ReplyOf(wantReply, ReplyOpcode(opcode)); }
      ReplyFromIs(m, opcode, wantReply);
      StateIs();
      BareEffect(m, opcode, wantReply);
    }

    /** The 14 builders with one operand byte. */
    method BuildOneByte(opcode: bv8, wantReply: bool, operand: bv8)
      requires msg.Length == 16 && IsOneByte(opcode) && MayAsk(opcode, wantReply)
      modifies this, msg
      ensures State() == Apply(old(State()), OneByte(opcode, wantReply, operand))
    {
      hide *;
      ghost var m := State();
      StateIs();
      len := 3;
      msg[1] := opcode;
      msg[2] := operand;
      if ReplyOpcode(opcode) != 0 { reply := ReplyOf(wantReply, ReplyOpcode(opcode)); }
      ReplyFromIs(m, opcode, wantReply);
      StateIs();
      OneByteEffect(m, opcode, wantReply, operand);
    }

    /** The five builders whose operand is a physical address. */
    method BuildAddress(opcode: bv8, wantReply: bool, addr: bv16)
      requires msg.Length == 16 && IsAddress(opcode) && MayAsk(opcode, wantReply)
      modifies this, msg
      ensures State() == Apply(old(State()), Address(opcode, wantReply, addr))
    {
      hide *;
      ghost var m := State();
      StateIs();
      len := 4;
      if IsBroadcast(opcode) { msg[0] := AsBroadcast(msg[0]); }
      msg[1] := opcode;
      msg[2] := Hi(addr);
      msg[3] := Lo(addr);
      if ReplyOpcode(opcode) != 0 { reply := ReplyOf(wantReply, ReplyOpcode(opcode)); }
      ReplyFromIs(m, opcode, wantReply);
      StateIs();
      AddressEffect(m, opcode, wantReply, addr);
    }

    method BuildRoutingChange(wantReply: bool, from: bv16, to: bv16)
      requires msg.Length == 16
      modifies this, msg
      ensures State() == Apply(old(State()), RoutingChange(wantReply, from, to))
    {
      hide *;
      ghost var m := State();
      StateIs();
      len := 6;
      msg[0] := AsBroadcast(msg[0]);
      msg[1] := MSG_ROUTING_CHANGE;
      msg[2] := Hi(from);
      msg[3] := Lo(from);
      msg[4] := Hi(to);
      msg[5] := Lo(to);
      reply := ReplyOf(wantReply, MSG_ROUTING_INFORMATION);
      StateIs();
      RoutingChangeEffect(m, wantReply, from, to);
    }

    method BuildFeatureAbort(aborted: bv8, reason: bv8)
      requires msg.Length == 16
      modifies this, msg
      ensures State() == Apply(old(State()), FeatureAbort(aborted, reason))
    {
      hide *;
      ghost var m := State();
      StateIs();
      len := 4;
      msg[1] := MSG_FEATURE_ABORT;
      msg[2] := aborted;
      msg[3] := reason;
      StateIs();
      FeatureAbortEffect(m, aborted, reason);
    }

    method BuildReportPhysicalAddr(addr: bv16, devType: bv8)
      requires msg.Length == 16
      modifies this, msg
      ensures State() == Apply(old(State()), ReportPhysicalAddr(addr, devType))
    {
      hide *;
      ghost var m := State();
      StateIs();
      len := 5;
      msg[0] := AsBroadcast(msg[0]);
      msg[1] := MSG_REPORT_PHYSICAL_ADDR;
      msg[2] := Hi(addr);
      msg[3] := Lo(addr);
      msg[4] := devType;
      StateIs();
      ReportPhysicalAddrEffect(m, addr, devType);
    }

    method BuildReportFeatures(version: bv8, devTypes: bv8, rcProfile: bv8, devFeatures: bv8)
      requires msg.Length == 16
      modifies this, msg
      ensures State() == Apply(old(State()), ReportFeatures(version, devTypes, rcProfile, devFeatures))
    {
      hide *;
      ghost var m := State();
      StateIs();
      len := 6;
      msg[0] := AsBroadcast(msg[0]);
      msg[1] := MSG_REPORT_FEATURES;
      msg[2] := version;
      msg[3] := devTypes;
      msg[4] := rcProfile;
      msg[5] := devFeatures;
      StateIs();
      ReportFeaturesEffect(m, version, devTypes, rcProfile, devFeatures);
    }

    method BuildDeviceVendorId(vendor: bv32)
      requires msg.Length == 16
      modifies this, msg
      ensures State() == Apply(old(State()), DeviceVendorId(vendor))
    {
      hide *;
      ghost var m := State();
      StateIs();
      len := 5;
      msg[0] := AsBroadcast(msg[0]);
      msg[1] := MSG_DEVICE_VENDOR_ID;
      msg[2] := Byte2(vendor);
      msg[3] := Byte1(vendor);
      msg[4] := Byte0(vendor);
      StateIs();
      DeviceVendorIdEffect(m, vendor);
    }

    // ---------- Strings and opaque payloads ----------

    /** `cec_msg_set_timer_program_title` and `cec_msg_set_osd_name`. */
    method BuildText(opcode: bv8, text: seq<bv8>)
      requires msg.Length == 16 && IsText(opcode) && 0 !in text
      modifies this, msg
      ensures State() == Apply(old(State()), Text(opcode, text))
    {
      hide *;
      ghost var m := State();
      StateIs();
      var n := StrLen(text);
      PrefixFits(text, 14);
      if n > 14 { n := 14; }
      len := 2 + n;
      msg[1] := opcode;
      CopyIn(2, text, n);
      StateIs();
      TextEffect(m, opcode, text);
    }

    method BuildOsdString(ctl: bv8, text: seq<bv8>)
      requires msg.Length == 16 && 0 !in text
      modifies this, msg
      ensures State() == Apply(old(State()), OsdString(ctl, text))
    {
      hide *;
      ghost var m := State();
      StateIs();
      var n := StrLen(text);
      PrefixFits(text, 13);
      if n > 13 { n := 13; }
      len := 3 + n;
      msg[1] := MSG_SET_OSD_STRING;
      msg[2] := ctl;
      CopyIn(3, text, n);
      StateIs();
      OsdStringEffect(m, ctl, text);
    }

    /** `cec_msg_vendor_command` and `cec_msg_vendor_remote_button_down`. */
    method BuildBlob(opcode: bv8, size: u8, data: seq<bv8>)
      requires msg.Length == 16 && IsBlob(opcode) && Min(size, 14) <= |data|
      modifies this, msg
      ensures State() == Apply(old(State()), Blob(opcode, size, data))
    {
      hide *;
      ghost var m := State();
      StateIs();
      var n := size;
      MinIs(size, 14);
      if n > 14 { n := 14; }
      len := 2 + n;
      msg[1] := opcode;
      CopyIn(2, data, n);
      StateIs();
      BlobEffect(m, opcode, size, data);
    }

    method BuildVendorCommandWithId(vendor: bv32, size: u8, data: seq<bv8>)
      requires msg.Length == 16 && Min(size, 11) <= |data|
      modifies this, msg
      ensures State() == Apply(old(State()), VendorCommandWithId(vendor, size, data))
    {
      hide *;
      ghost var m := State();
      StateIs();
      var n := size;
      MinIs(size, 11);
      if n > 11 { n := 11; }
      len := 5 + n;
      msg[1] := MSG_VENDOR_COMMAND_WITH_ID;
      msg[2] := Byte2(vendor);
      msg[3] := Byte1(vendor);
      msg[4] := Byte0(vendor);
      CopyIn(5, data, n);
      StateIs();
      VendorCommandWithIdEffect(m, vendor, size, data);
    }

    method BuildSetMenuLanguage(language: seq<bv8>)
      requires msg.Length == 16 && |language| >= 3
      modifies this, msg
      ensures State() == Apply(old(State()), SetMenuLanguage(language))
    {
      hide *;
      ghost var m := State();
      StateIs();
      len := 5;
      msg[0] := AsBroadcast(msg[0]);
      msg[1] := MSG_SET_MENU_LANGUAGE;
      CopyIn(2, language, 3);
      StateIs();
      SetMenuLanguageEffect(m, language);
    }

    // ---------- Services ----------

    /** `cec_set_digital_service_id`. */
    method SetDigitalServiceId(at: nat, d: Digital)
      requires msg.Length == 16 && at + 7 <= 16
      modifies msg
      ensures msg[..] == Put(old(msg[..]), at, DigitalBytes(d))
    {
      hide *;
      ghost var b := msg[..];
      msg[at] := DigitalHead(d);
      if d.ByChannel() {
        msg[at + 1] := ChannelHigh(d.Format(), d.w1);
        msg[at + 2] := Lo(d.w1);
        msg[at + 3] := Hi(d.w2);
        msg[at + 4] := Lo(d.w2);
        msg[at + 5] := 0;
        msg[at + 6] := 0;
      } else if d.Atsc() {
        msg[at + 1] := Hi(d.w0);
        msg[at + 2] := Lo(d.w0);
        msg[at + 3] := Hi(d.w1);
        msg[at + 4] := Lo(d.w1);
        msg[at + 5] := 0;
        msg[at + 6] := 0;
      } else {
        msg[at + 1] := Hi(d.w0);
        msg[at + 2] := Lo(d.w0);
        msg[at + 3] := Hi(d.w1);
        msg[at + 4] := Lo(d.w1);
        msg[at + 5] := Hi(d.w2);
        msg[at + 6] := Lo(d.w2);
      }
      PutDigital(b, at, d);
    }

    method SetAnalogue(at: nat, a: Analogue)
      requires msg.Length == 16 && at + 4 <= 16
      modifies msg
      ensures msg[..] == Put(old(msg[..]), at, AnalogueBytes(a))
    {
      hide *;
      ghost var b := msg[..];
      msg[at] := a.bcastType;
      msg[at + 1] := Hi(a.freq);
      msg[at + 2] := Lo(a.freq);
      msg[at + 3] := a.system;
      PutAnalogue(b, at, a);
    }

    // The five arms of `cec_msg_record_on` are builders of their own, without a `reply` argument.

    method BuildRecordOwn()
      requires msg.Length == 16
      modifies this, msg
      ensures State() == RecordArm(old(State()), Own)
    {
      hide *;
      ghost var m := State();
      StateIs();
      len := 3;
      msg[1] := MSG_RECORD_ON;
      msg[2] := RECORD_SRC_OWN;
      StateIs();
      RecordOwnEffect(m);
    }

    method BuildRecordDigital(d: Digital)
      requires msg.Length == 16
      modifies this, msg
      ensures State() == RecordArm(old(State()), DigitalSrc(d))
    {
      hide *;
      ghost var m := State();
      StateIs();
      len := 10;
      msg[1] := MSG_RECORD_ON;
      msg[2] := RECORD_SRC_DIGITAL;
      SetDigitalServiceId(3, d);
      StateIs();
      RecordDigitalEffect(m, d);
    }

    method BuildRecordAnalogue(a: Analogue)
      requires msg.Length == 16
      modifies this, msg
      ensures State() == RecordArm(old(State()), AnalogueSrc(a))
    {
      hide *;
      ghost var m := State();
      StateIs();
      len := 7;
      msg[1] := MSG_RECORD_ON;
      msg[2] := RECORD_SRC_ANALOG;
      SetAnalogue(3, a);
      StateIs();
      RecordAnalogueEffect(m, a);
    }

    method BuildRecordPlug(plug: bv8)
      requires msg.Length == 16
      modifies this, msg
      ensures State() == RecordArm(old(State()), RecordSrc.Plug(plug))
    {
      hide *;
      ghost var m := State();
      StateIs();
      len := 4;
      msg[1] := MSG_RECORD_ON;
      msg[2] := RECORD_SRC_EXT_PLUG;
      msg[3] := plug;
      StateIs();
      RecordPlugEffect(m, plug);
    }

    method BuildRecordExtAddress(addr: bv16)
      requires msg.Length == 16
      modifies this, msg
      ensures State() == RecordArm(old(State()), ExtAddress(addr))
    {
      hide *;
      ghost var m := State();
      StateIs();
      len := 5;
      msg[1] := MSG_RECORD_ON;
      msg[2] := RECORD_SRC_EXT_PHYS_ADDR;
      msg[3] := Hi(addr);
      msg[4] := Lo(addr);
      StateIs();
      RecordExtAddressEffect(m, addr);
    }

    method BuildRecordOn(wantReply: bool, src: RecordSrc)
      requires msg.Length == 16 && Valid(RecordOn(wantReply, src))
      modifies this, msg
      ensures State() == Apply(old(State()), RecordOn(wantReply, src))
    {
      hide *;
      RecordOnArms(State(), wantReply, src);
      StateIs();
      match src {
        case Own => BuildRecordOwn();
        case DigitalSrc(d) => BuildRecordDigital(d);
        case AnalogueSrc(a) => BuildRecordAnalogue(a);
        case Plug(plug) => BuildRecordPlug(plug);
        case ExtAddress(addr) => BuildRecordExtAddress(addr);
        case UnknownSrc(_) =>
      }
      StateIs();
      reply := ReplyOf(wantReply, MSG_RECORD_STATUS);
      StateIs();
    }

    /** `cec_msg_tuner_device_status_analog`. */
    method BuildTunerAnalogue(recFlag: bv8, display: bv8, a: Analogue)
      requires msg.Length == 16
      modifies this, msg
      ensures State() == Apply(old(State()), TunerStatus(recFlag, display, AnalogueService(a)))
    {
      hide *;
      ghost var m := State();
      StateIs();
      len := 7;
      msg[1] := MSG_TUNER_DEVICE_STATUS;
      msg[2] := FlagByte(recFlag, display);
      SetAnalogue(3, a);
      StateIs();
      TunerAnalogueEffect(m, recFlag, display, a);
    }

    /** `cec_msg_tuner_device_status_digital`. */
    method BuildTunerDigital(recFlag: bv8, display: bv8, d: Digital)
      requires msg.Length == 16
      modifies this, msg
      ensures State() == Apply(old(State()), TunerStatus(recFlag, display, DigitalService(d)))
    {
      hide *;
      ghost var m := State();
      StateIs();
      len := 10;
      msg[1] := MSG_TUNER_DEVICE_STATUS;
      msg[2] := FlagByte(recFlag, display);
      SetDigitalServiceId(3, d);
      StateIs();
      TunerDigitalEffect(m, recFlag, display, d);
    }

    /** `cec_msg_tuner_device_status`. */
    method BuildTunerStatus(recFlag: bv8, display: bv8, service: Service)
      requires msg.Length == 16
      modifies this, msg
      ensures State() == Apply(old(State()), TunerStatus(recFlag, display, service))
    {
      match service
      case AnalogueService(a) => BuildTunerAnalogue(recFlag, display, a);
      case DigitalService(d) => BuildTunerDigital(recFlag, display, d);
    }

    /** `cec_msg_select_analogue_service`. */
    method BuildSelectAnalogue(a: Analogue)
      requires msg.Length == 16
      modifies this, msg
      ensures State() == Apply(old(State()), SelectService(AnalogueService(a)))
    {
      hide *;
      ghost var m := State();
      StateIs();
      len := 6;
      msg[1] := MSG_SELECT_ANALOGUE_SERVICE;
      SetAnalogue(2, a);
      StateIs();
      SelectAnalogueEffect(m, a);
    }

    /** `cec_msg_select_digital_service`. */
    method BuildSelectDigital(d: Digital)
      requires msg.Length == 16
      modifies this, msg
      ensures State() == Apply(old(State()), SelectService(DigitalService(d)))
    {
      hide *;
      ghost var m := State();
      StateIs();
      len := 9;
      msg[1] := MSG_SELECT_DIGITAL_SERVICE;
      SetDigitalServiceId(2, d);
      StateIs();
      SelectDigitalEffect(m, d);
    }

    // ---------- Timers ----------

    method BuildTimerStatus(t: TimerInfo)
      requires msg.Length == 16
      modifies this, msg
      ensures State() == Apply(old(State()), TimerStatus(t))
    {
      hide *;
      ghost var m := State();
      StateIs();
      len := 3;
      msg[1] := MSG_TIMER_STATUS;
      msg[2] := TimerInfoByte(t);
      if HasDuration(t) {
        len := len + 2;
        msg[3] := Bcd(t.hr);
        msg[4] := Bcd(t.min);
      }
      StateIs();
      TimerStatusEffect(m, t);
    }

    /** The operands that the six timer builders have in common. */
    method SetSlot(t: TimerSlot)
      requires msg.Length == 16
      modifies msg
      ensures msg[..] == Put(old(msg[..]), 2, SlotBytes(t))
    {
      hide *;
      ghost var b := msg[..];
      msg[2] := t.day;
      msg[3] := t.month;
      msg[4] := Bcd(t.startHr);
      msg[5] := Bcd(t.startMin);
      msg[6] := Bcd(t.durHr);
      msg[7] := Bcd(t.durMin);
      msg[8] := t.recSeq;
      PutSlot(b, t);
    }

    /** `cec_msg_set_analogue_timer` and `cec_msg_clear_analogue_timer`. */
    method BuildAnalogueTimer(set_: bool, wantReply: bool, t: TimerSlot, a: Analogue)
      requires msg.Length == 16
      modifies this, msg
      ensures State() == Apply(old(State()), Timer(set_, wantReply, t, AnalogueTimer(a)))
    {
      hide *;
      ghost var m := State();
      StateIs();
      len := 13;
      msg[1] := TimerOpcode(set_, AnalogueTimer(a));
      SetSlot(t);
      SetAnalogue(9, a);
      reply := ReplyOf(wantReply, TimerReply(set_));
      StateIs();
      AnalogueTimerEffect(m, set_, wantReply, t, a);
    }

    /** `cec_msg_set_digital_timer` and `cec_msg_clear_digital_timer`. */
    method BuildDigitalTimer(set_: bool, wantReply: bool, t: TimerSlot, d: Digital)
      requires msg.Length == 16
      modifies this, msg
      ensures State() == Apply(old(State()), Timer(set_, wantReply, t, DigitalTimer(d)))
    {
      hide *;
      ghost var m := State();
      StateIs();
      len := 16;
      reply := ReplyOf(wantReply, TimerReply(set_));
      msg[1] := TimerOpcode(set_, DigitalTimer(d));
      SetSlot(t);
      SetDigitalServiceId(9, d);
      StateIs();
      DigitalTimerEffect(m, set_, wantReply, t, d);
    }

    /** `cec_msg_set_ext_timer` and `cec_msg_clear_ext_timer`. */
    method BuildExtTimer(set_: bool, wantReply: bool, t: TimerSlot, spec: bv8, plug: bv8, addr: bv16)
      requires msg.Length == 16
      modifies this, msg
      ensures State() == Apply(old(State()), Timer(set_, wantReply, t, ExtTimer(spec, plug, addr)))
    {
      hide *;
      ghost var m := State();
      StateIs();
      len := 13;
      msg[1] := TimerOpcode(set_, ExtTimer(spec, plug, addr));
      SetSlot(t);
      msg[9] := spec;
      msg[10] := plug;
      msg[11] := Hi(addr);
      msg[12] := Lo(addr);
      reply := ReplyOf(wantReply, TimerReply(set_));
      StateIs();
      ExtTimerEffect(m, set_, wantReply, t, spec, plug, addr);
    }

    // ---------- Remote control ----------

    method BuildUserControl(u: UiCommand)
      requires msg.Length == 16
      modifies this, msg
      ensures State() == Apply(old(State()), UserControl(u))
    {
      hide *;
      ghost var m := State();
      StateIs();
      len := 3;
      msg[1] := MSG_USER_CONTROL_PRESSED;
      msg[2] := u.cmd;
      if u.hasArg {
        if u.TakesByte() {
          len := len + 1;
          msg[3] := u.first;
        } else if u.TakesChannel() {
          len := len + 4;
          msg[3] := ChannelHigh(u.first, u.major);
          msg[4] := Lo(u.major);
          msg[5] := Hi(u.minor);
          msg[6] := Lo(u.minor);
        }
      }
      StateIs();
      UserControlEffect(m, u);
    }

    // ---------- Audio ----------

    method BuildAudioStatus(mute: bv8, volume: bv8)
      requires msg.Length == 16
      modifies this, msg
      ensures State() == Apply(old(State()), AudioStatus(mute, volume))
    {
      hide *;
      ghost var m := State();
      StateIs();
      len := 3;
      msg[1] := MSG_REPORT_AUDIO_STATUS;
      msg[2] := FlagByte(mute, FlagLow(volume));
      StateIs();
      AudioStatusEffect(m, mute, volume);
    }

    method BuildSystemAudioRequest(wantReply: bool, addr: bv16)
      requires msg.Length == 16
      modifies this, msg
      ensures State() == Apply(old(State()), SystemAudioRequest(wantReply, addr))
    {
      hide *;
      ghost var m := State();
      StateIs();
      len := if addr == 0xffff then 2 else 4;
      msg[1] := MSG_SYSTEM_AUDIO_MODE_REQUEST;
      msg[2] := Hi(addr);
      msg[3] := Lo(addr);
      reply := ReplyOf(wantReply, MSG_SET_SYSTEM_AUDIO_MODE);
      StateIs();
      SystemAudioRequestEffect(m, wantReply, addr);
    }

    method BuildReportDescriptors(num: u8, descriptors: seq<bv32>)
      requires msg.Length == 16 && Min(num, 4) <= |descriptors|
      modifies this, msg
      ensures State() == Apply(old(State()), ReportDescriptors(num, descriptors))
    {
      hide *;
      ghost var m := State();
      StateIs();
      var n := num;
      MinIs(num, 4);
      if n > 4 { n := 4; }
      len := 2 + n * 3;
      msg[1] := MSG_REPORT_SHORT_AUDIO_DESCRIPTOR;
      ghost var b := msg[..];
      DescriptorsStart(b, descriptors);
      for i := 0 to n
        invariant len == 2 + n * 3 && timeout == m.timeout && reply == m.reply
        invariant msg[..] == Put(b, 2, DescriptorBytes(descriptors[..i]))
      {
        msg[2 + i * 3] := Byte2(descriptors[i]);
        msg[3 + i * 3] := Byte1(descriptors[i]);
        msg[4 + i * 3] := Byte0(descriptors[i]);
        DescriptorsStep(b, descriptors, i);
      }
      StateIs();
      ReportDescriptorsEffect(m, num, descriptors);
    }

    method BuildRequestDescriptors(wantReply: bool, num: u8, ids: seq<bv8>, codes: seq<bv8>)
      requires msg.Length == 16 && Min(num, 4) <= |ids| && Min(num, 4) <= |codes|
      modifies this, msg
      ensures State() == Apply(old(State()), RequestDescriptors(wantReply, num, ids, codes))
    {
      hide *;
      ghost var m := State();
      StateIs();
      var n := num;
      MinIs(num, 4);
      if n > 4 { n := 4; }
      len := 2 + n;
      msg[1] := MSG_REQUEST_SHORT_AUDIO_DESCRIPTOR;
      reply := ReplyOf(wantReply, MSG_REPORT_SHORT_AUDIO_DESCRIPTOR);
      ghost var b := msg[..];
      FormatsStart(b, ids, codes);
      for i := 0 to n
        invariant len == 2 + n && timeout == m.timeout
        invariant reply == ReplyOf(wantReply, MSG_REPORT_SHORT_AUDIO_DESCRIPTOR)
        invariant msg[..] == Put(b, 2, FormatBytes(ids[..i], codes[..i]))
      {
        msg[2 + i] := FormatByte(ids[i], codes[i]);
        FormatsStep(b, ids, codes, i);
      }
      StateIs();
      RequestDescriptorsEffect(m, wantReply, num, ids, codes);
    }

    method BuildReportLatency(addr: bv16, video: bv8, low: bv8, comp: bv8, delay: bv8)
      requires msg.Length == 16
      modifies this, msg
      ensures State() == Apply(old(State()), ReportLatency(addr, video, low, comp, delay))
    {
      hide *;
      ghost var m := State();
      StateIs();
      len := 6;
      msg[0] := AsBroadcast(msg[0]);
      msg[1] := MSG_REPORT_CURRENT_LATENCY;
      msg[2] := Hi(addr);
      msg[3] := Lo(addr);
      msg[4] := video;
      msg[5] := LatencyByte(low, comp);
      if comp == 3 {
        msg[len] := delay;
        len := len + 1;
      }
      StateIs();
      ReportLatencyEffect(m, addr, video, low, comp, delay);
    }

    // ---------- Capability discovery and control: bytes 2 and 3 are left to the CEC framework ----------

    method BuildHecInquireState(a1: bv16, a2: bv16)
      requires msg.Length == 16
      modifies this, msg
      ensures State() == Apply(old(State()), Cdc(HecInquireState(a1, a2)))
    {
      hide *;
      ghost var m := State();
      StateIs();
      len := 9;
      msg[0] := AsBroadcast(msg[0]);
      msg[1] := MSG_CDC_MESSAGE;
      msg[4] := CDC_HEC_INQUIRE_STATE;
      msg[5] := Hi(a1);
      msg[6] := Lo(a1);
      msg[7] := Hi(a2);
      msg[8] := Lo(a2);
      StateIs();
      HecInquireStateEffect(m, a1, a2);
    }

    method BuildHecReportState(target: bv16, hec: bv8, host: bv8, enc: bv8, err: bv8, hasField: bool, field: bv16)
      requires msg.Length == 16
      modifies this, msg
      ensures State() == Apply(old(State()), Cdc(HecReportState(target, hec, host, enc, err, hasField, field)))
    {
      hide *;
      ghost var m := State();
      StateIs();
      len := if hasField then 10 else 8;
      msg[0] := AsBroadcast(msg[0]);
      msg[1] := MSG_CDC_MESSAGE;
      msg[4] := CDC_HEC_REPORT_STATE;
      msg[5] := Hi(target);
      msg[6] := Lo(target);
      msg[7] := HecStateByte(hec, host, enc, err);
      if hasField {
        msg[8] := Hi(field);
        msg[9] := Lo(field);
      }
      StateIs();
      HecReportStateEffect(m, target, hec, host, enc, err, hasField, field);
    }

    /** The optional addresses of `cec_msg_cdc_hec_set_state`, each stored through
        `msg->msg[msg->len++]`. */
    method AppendAddrs(a3: bv16, a4: bv16, a5: bv16)
      requires msg.Length == 16 && len == 10
      modifies this`len, msg
      ensures len == 10 + |AddrTail(a3, a4, a5)|
      ensures msg[..] == PutTail(old(msg[..]), a3, a4, a5)
    {
      hide *;
      PutTailIs(msg[..], a3, a4, a5);
      if a3 == PHYS_ADDR_INVALID { return; }
      msg[len], len := Hi(a3), len + 1;
      msg[len], len := Lo(a3), len + 1;
      if a4 == PHYS_ADDR_INVALID { return; }
      msg[len], len := Hi(a4), len + 1;
      msg[len], len := Lo(a4), len + 1;
      if a5 == PHYS_ADDR_INVALID { return; }
      msg[len], len := Hi(a5), len + 1;
      msg[len], len := Lo(a5), len + 1;
    }

    method BuildHecSetState(a1: bv16, a2: bv16, state: bv8, a3: bv16, a4: bv16, a5: bv16)
      requires msg.Length == 16
      modifies this, msg
      ensures State() == Apply(old(State()), Cdc(HecSetState(a1, a2, state, a3, a4, a5)))
    {
      hide *;
      ghost var m := State();
      StateIs();
      len := 10;
      msg[0] := AsBroadcast(msg[0]);
      msg[1] := MSG_CDC_MESSAGE;
      msg[4] := CDC_HEC_INQUIRE_STATE;
      msg[5] := Hi(a1);
      msg[6] := Lo(a1);
      msg[7] := Hi(a2);
      msg[8] := Lo(a2);
      msg[9] := state;
      AppendAddrs(a3, a4, a5);
      StateIs();
      HecSetStateEffect(m, a1, a2, state, a3, a4, a5);
    }

    method BuildHecSetStateAdjacent(a1: bv16, state: bv8)
      requires msg.Length == 16
      modifies this, msg
      ensures State() == Apply(old(State()), Cdc(HecSetStateAdjacent(a1, state)))
    {
      hide *;
      ghost var m := State();
      StateIs();
      len := 8;
      msg[0] := AsBroadcast(msg[0]);
      msg[1] := MSG_CDC_MESSAGE;
      msg[4] := CDC_HEC_SET_STATE_ADJACENT;
      msg[5] := Hi(a1);
      msg[6] := Lo(a1);
      msg[7] := state;
      StateIs();
      HecSetStateAdjacentEffect(m, a1, state);
    }

    method BuildHecRequestDeactivation(a1: bv16, a2: bv16, a3: bv16)
      requires msg.Length == 16
      modifies this, msg
      ensures State() == Apply(old(State()), Cdc(HecRequestDeactivation(a1, a2, a3)))
    {
      hide *;
      ghost var m := State();
      StateIs();
      len := 11;
      msg[0] := AsBroadcast(msg[0]);
      msg[1] := MSG_CDC_MESSAGE;
      msg[4] := CDC_HEC_REQUEST_DEACTIVATION;
      msg[5] := Hi(a1);
      msg[6] := Lo(a1);
      msg[7] := Hi(a2);
      msg[8] := Lo(a2);
      msg[9] := Hi(a3);
      msg[10] := Lo(a3);
      StateIs();
      HecRequestDeactivationEffect(m, a1, a2, a3);
    }

    method BuildHecNotifyAlive()
      requires msg.Length == 16
      modifies this, msg
      ensures State() == Apply(old(State()), Cdc(HecNotifyAlive))
    {
      hide *;
      ghost var m := State();
      StateIs();
      len := 5;
      msg[0] := AsBroadcast(msg[0]);
      msg[1] := MSG_CDC_MESSAGE;
      msg[4] := CDC_HEC_NOTIFY_ALIVE;
      StateIs();
      HecNotifyAliveEffect(m);
    }

    method BuildHecDiscover()
      requires msg.Length == 16
      modifies this, msg
      ensures State() == Apply(old(State()), Cdc(HecDiscover))
    {
      hide *;
      ghost var m := State();
      StateIs();
      len := 5;
      msg[0] := AsBroadcast(msg[0]);
      msg[1] := MSG_CDC_MESSAGE;
      msg[4] := CDC_HEC_DISCOVER;
      StateIs();
      HecDiscoverEffect(m);
    }

    method BuildHpdSetState(port: bv8, hpd: bv8)
      requires msg.Length == 16
      modifies this, msg
      ensures State() == Apply(old(State()), Cdc(HpdSetState(port, hpd)))
    {
      hide *;
      ghost var m := State();
      StateIs();
      len := 6;
      msg[0] := AsBroadcast(msg[0]);
      msg[1] := MSG_CDC_MESSAGE;
      msg[4] := CDC_HPD_SET_STATE;
      msg[5] := NibbleByte(port, hpd);
      StateIs();
      HpdSetStateEffect(m, port, hpd);
    }

    method BuildHpdReportState(hpd: bv8, hpdError: bv8)
      requires msg.Length == 16
      modifies this, msg
      ensures State() == Apply(old(State()), Cdc(HpdReportState(hpd, hpdError)))
    {
      hide *;
      ghost var m := State();
      StateIs();
      len := 6;
      msg[0] := AsBroadcast(msg[0]);
      msg[1] := MSG_CDC_MESSAGE;
      msg[4] := CDC_HPD_REPORT_STATE;
      msg[5] := NibbleByte(hpd, hpdError);
      StateIs();
      HpdReportStateEffect(m, hpd, hpdError);
    }
  }
}
