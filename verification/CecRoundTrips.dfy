/** What each decoder gives back of the call that built the message, and exactly
which calls come back unchanged.  `m` is any message: nothing is assumed about
what the buffer held before. */
module CecRoundTrips {
  import opened Options
  import opened CecBytes
  import opened CecOps
  import opened CecWire
  import opened CecRead
  import opened CecEffects
  import opened CecInjective
  import opened CecSeparation
  import opened CecDecode
  import opened CecTables

  lemma ApplyHolds(m: Msg, op: Op)
    requires Valid(op) && Effective(op)
    ensures 2 <= Apply(m, op).len <= 16
    ensures Holds(Apply(m, op).buf, Apply(m, op).len, op, m.buf[2], m.buf[3])
  {
    hide Apply, Valid, Operands, Opcode;
    WireOfApply(m, op);
    CarriedOperands(Apply(m, op).buf, Apply(m, op).len, op, m.buf[2], m.buf[3]);
  }

  // ---------- Digital service ids ----------

  /** The operands that the id method and broadcast system select are equal. */
  predicate SameService(a: Digital, b: Digital) {
    && a.idMethod == b.idMethod && a.system == b.system
    && if b.idMethod == 1 then a.Format() == b.Format() && a.w1 == b.w1 && a.w2 == b.w2
       else
         && a.w0 == b.w0 && a.w1 == b.w1
         && (b.system in {0x01, 0x10, 0x11, 0x12} || a.w2 == b.w2)
  }

  /** The ids that survive encoding and decoding. */
  predicate Faithful(d: Digital) {
    d.system < 0x80 && (d.idMethod == 0 || (d.idMethod == 1 && d.Format() < 64 && d.w1 < 256))
  }

  /** What the decoder makes of a major number. */
  function DecodedMajor(major: bv16): bv16 { (((major >> 8) & 3) << 6) | (major & 0xff) }

  lemma ChannelBits(format: bv8, major: bv16)
    ensures ReadFormat(ChannelHigh(format, major)) == CanonChannel(format, major).0
    ensures ReadMajor(ChannelHigh(format, major), Lo(major)) == DecodedMajor(major)
    ensures DecodedMajor(major) < 256 && (major < 256 ==> DecodedMajor(major) == major)
    ensures CanonChannel(format, major).0 < 64
    ensures major < 1024 ==> CanonChannel(format, major).0 == format & 0x3f
    ensures format < 64 ==> format & 0x3f == format
  {
  }

  lemma StoredFormat(w: bv16, f: bv8)
    ensures Lo(StoreLow(w, f)) == f
  {
  }

  lemma HeadBits(d: Digital)
    ensures FlagLow(DigitalHead(d)) < 0x80 && FlagHigh(DigitalHead(d)) <= 1
    ensures d.system < 0x80 && d.idMethod <= 1 ==>
              FlagLow(DigitalHead(d)) == d.system && FlagHigh(DigitalHead(d)) == d.idMethod
    ensures d.idMethod <= 1 ==> d.idMethod == 0 || d.ByChannel()
  {
  }

  /** The decoded words, given the head bit that selects them. */
  lemma DecodedWords(prev: Digital, b: seq<bv8>, at: nat, d: Digital)
    requires at + 7 <= |b| && b[at..at + 7] == DigitalBytes(d)
    ensures var r := DecodeDigital(prev, b, at);
            && r.idMethod == FlagHigh(DigitalHead(d)) && r.system == FlagLow(DigitalHead(d))
            && (d.ByChannel() && r.ByChannel() ==>
                  && r.Format() == CanonChannel(d.Format(), d.w1).0
                  && r.w1 == DecodedMajor(d.w1) && r.w2 == d.w2)
            && (!d.ByChannel() && !r.ByChannel() ==>
                  r.w0 == d.w0 && r.w1 == d.w1 && r.w2 == if d.Atsc() then 0 else d.w2)
  {
    hide FlagHigh, FlagLow, DigitalHead, ChannelHigh, ReadFormat, ReadMajor, StoreLow, CanonChannel,
         DecodedMajor, DigitalBytes, Hi, Lo, WordAt;
    DigitalBytesAre(d);
    var s := b[at..at + 7];
    assert s[0] == b[at] && s[1] == b[at + 1] && s[2] == b[at + 2] && s[3] == b[at + 3]
        && s[4] == b[at + 4] && s[5] == b[at + 5] && s[6] == b[at + 6];
    if d.ByChannel() {
      WordAtBytes(b, at + 3, d.w2);
      ChannelBits(d.Format(), d.w1);
      StoredFormat(prev.w0, ReadFormat(b[at + 1]));
    } else {
      WordAtBytes(b, at + 1, d.w0);
      WordAtBytes(b, at + 3, d.w1);
      if d.Atsc() { ZeroWord(b, at + 5); } else { WordAtBytes(b, at + 5, d.w2); }
    }
  }

  lemma ZeroWord(b: seq<bv8>, i: nat)
    requires i + 2 <= |b| && b[i] == 0 && b[i + 1] == 0
    ensures WordAt(b, i) == 0
  {
  }

  /** A digital service id comes back exactly when its system fits seven bits
      and, for a channel, the format fits six bits and the major number eight. */
  lemma DigitalRoundTrip(prev: Digital, b: seq<bv8>, at: nat, d: Digital)
    requires at + 7 <= |b| && b[at..at + 7] == DigitalBytes(d)
    ensures SameService(DecodeDigital(prev, b, at), d) <==> Faithful(d)
  {
    hide FlagHigh, FlagLow, DigitalHead, CanonChannel, DecodedMajor, DecodeDigital, DigitalBytes, Lo;
    DecodedWords(prev, b, at, d);
    HeadBits(d);
    ChannelBits(d.Format(), d.w1);
  }

  /** A channel whose fields fit the wire: format and minor number always come
      back, the major number exactly when it is below 256. */
  lemma ChannelRoundTrip(prev: Digital, b: seq<bv8>, at: nat, d: Digital)
    requires at + 7 <= |b| && b[at..at + 7] == DigitalBytes(d)
    requires d.ByChannel() && d.system < 0x80 && d.Format() < 64 && d.w1 < 1024
    ensures var r := DecodeDigital(prev, b, at);
            && r.ByChannel() && r.system == d.system && r.Format() == d.Format() && r.w2 == d.w2
            && (r.w1 == d.w1 <==> d.w1 < 256)
  {
    hide FlagHigh, FlagLow, DigitalHead, CanonChannel, DecodedMajor, DecodeDigital, DigitalBytes, Lo;
    DecodedWords(prev, b, at, d);
    HeadBits(d);
    ChannelBits(d.Format(), d.w1);
  }

  /** Where each builder embeds a service id. */
  function DigitalOffset(op: Op): nat {
    match op
    case SelectService(_) => 2
    case Timer(_, _, _, _) => 9
    case _ => 3
  }

  /** The service id that a call carries. */
  function DigitalOperand(op: Op): Option<Digital> {
    match op
    case RecordOn(_, DigitalSrc(d)) => Some(d)
    case TunerStatus(_, _, DigitalService(d)) => Some(d)
    case SelectService(DigitalService(d)) => Some(d)
    case Timer(_, _, _, DigitalTimer(d)) => Some(d)
    case _ => None
  }

  lemma DigitalEmbedded(m: Msg, op: Op)
    requires Valid(op) && DigitalOperand(op).Some?
    ensures var at := DigitalOffset(op); Apply(m, op).buf[at..at + 7] == DigitalBytes(DigitalOperand(op).value)
  {
    hide Apply, DigitalBytes, SlotBytes, FlagByte;
    ApplyHolds(m, op);
    var s := Operands(op, m.buf[2], m.buf[3]);
    var b := Apply(m, op).buf;
    var at := DigitalOffset(op);
    assert s[at - 2..at + 5] == DigitalBytes(DigitalOperand(op).value);
    assert b[at..at + 7] == b[2..Apply(m, op).len][at - 2..at + 5];
  }

  /** The result for all four carriers: record source, tuner status, service
      selection and timers. */
  lemma EmbeddedDigitalRoundTrip(m: Msg, op: Op, prev: Digital)
    requires Valid(op) && DigitalOperand(op).Some?
    ensures var d := DigitalOperand(op).value;
            SameService(DecodeDigital(prev, Apply(m, op).buf, DigitalOffset(op)), d) <==> Faithful(d)
  {
    hide Apply, DecodeDigital, SameService, Faithful, DigitalBytes;
    DigitalEmbedded(m, op);
    DigitalRoundTrip(prev, Apply(m, op).buf, DigitalOffset(op), DigitalOperand(op).value);
  }

  /** Whichever builder carries it, an id by number brings back its first two
      numbers, and its third one unless the system is one of the four ATSC
      systems: then the third word decodes to 0. */
  lemma ByIdRoundTrip(m: Msg, op: Op, prev: Digital)
    requires Valid(op) && DigitalOperand(op).Some?
    requires var d := DigitalOperand(op).value; d.idMethod == 0 && d.system < 0x80
    ensures var d := DigitalOperand(op).value;
            var at := if op.SelectService? then 2 else if op.Timer? then 9 else 3;
            DecodeDigital(prev, Apply(m, op).buf, at) == d.(w2 := if d.system in {0x01, 0x10, 0x11, 0x12} then 0 else d.w2)
  {
    hide Apply, DecodeDigital, FlagHigh, FlagLow, DigitalHead, DigitalBytes, DecodedMajor, CanonChannel;
    var d := DigitalOperand(op).value;
    DigitalEmbedded(m, op);
    DecodedWords(prev, Apply(m, op).buf, DigitalOffset(op), d);
    HeadBits(d);
    DigitalCases(d);
  }

  // ---------- Record source and tuner status ----------

  predicate SameSrc(a: RecordSrc, b: RecordSrc) {
    if b.DigitalSrc? then a.DigitalSrc? && SameService(a.digital, b.digital) else a == b
  }

  /** The record source comes back, arm and operands, exactly when it holds no
      digital id or a faithful one. */
  lemma RecordOnRoundTrip(m: Msg, wantReply: bool, src: RecordSrc, prev: Digital)
    requires !src.UnknownSrc?
    ensures SameSrc(DecodeRecordSrc(prev, Apply(m, RecordOn(wantReply, src)).buf), src) <==>
            (src.DigitalSrc? ==> Faithful(src.digital))
  {
    hide Apply, DecodeDigital, SameService, Faithful, ReadRecordSrc, RecordSrcBytes;
    var op := RecordOn(wantReply, src);
    ApplyHolds(m, op);
    var b := Apply(m, op).buf;
    SrcTag(b, src);
    if src.DigitalSrc? {
      EmbeddedDigitalRoundTrip(m, op, prev);
    } else {
      ReadRecordOn(b, src);
    }
  }

  lemma SrcTag(b: seq<bv8>, src: RecordSrc)
    requires !src.UnknownSrc? && 2 + |RecordSrcBytes(src)| <= |b|
    requires b[2..2 + |RecordSrcBytes(src)|] == RecordSrcBytes(src)
    ensures At(b, 2) == RECORD_SRC_DIGITAL <==> src.DigitalSrc?
  {
    hide DigitalBytes, AnalogueBytes, Hi, Lo;
    assert b[2] == b[2..2 + |RecordSrcBytes(src)|][0];
  }

  /** Both arms of the tuner status are told apart by the length, and come back
      with flag and display exactly when these fit and a digital id is faithful. */
  lemma TunerStatusRoundTrip(m: Msg, recFlag: bv8, display: bv8, service: Service, prev: Digital)
    ensures var a := Apply(m, TunerStatus(recFlag, display, service));
            var r := DecodeTunerService(prev, a.buf, a.len);
            && r.AnalogueService? == service.AnalogueService?
            && (r.AnalogueService? ==> r == service)
            && (r.DigitalService? ==> (SameService(r.digital, service.digital) <==> Faithful(service.digital)))
            && (FlagHigh(a.buf[2]) == recFlag && FlagLow(a.buf[2]) == display <==> recFlag < 2 && display < 0x80)
  {
    hide Apply, DecodeDigital, SameService, Faithful, ReadAnalogue, FlagByte, FlagHigh, FlagLow,
         AnalogueBytes, DigitalBytes;
    var op := TunerStatus(recFlag, display, service);
    ApplyHolds(m, op);
    var a := Apply(m, op);
    var s := a.buf[2..a.len];
    assert a.buf[2] == s[0] && a.buf[3..a.len] == s[1..];
    FlagRoundTrip(recFlag, display);
    match service
    case AnalogueService(x) => ReadAnalogueBytes(a.buf, 3, x);
    case DigitalService(x) => EmbeddedDigitalRoundTrip(m, op, prev);
  }

  lemma FlagRoundTrip(flag: bv8, low: bv8)
    ensures FlagHigh(FlagByte(flag, low)) == flag && FlagLow(FlagByte(flag, low)) == low <==> flag < 2 && low < 0x80
  {
  }

  // ---------- Timers ----------

  /** Six timer messages: every slot field comes back modulo 160, analogue and
      external sources unchanged; digital ones as `EmbeddedDigitalRoundTrip` says. */
  lemma TimerRoundTrip(m: Msg, set_: bool, wantReply: bool, slot: TimerSlot, src: TimerSrc)
    ensures var b := Apply(m, Timer(set_, wantReply, slot, src)).buf;
            && ReadSlot(b) == CanonSlot(slot)
            && (src.AnalogueTimer? ==> ReadAnalogue(b, 9) == src.analogue)
            && (src.ExtTimer? ==> ReadTimerSrc(MSG_SET_EXT_TIMER, b) == src)
  {
    hide Apply, ReadSlot, CanonSlot, ReadAnalogue, SlotBytes, AnalogueBytes, DigitalBytes;
    var op := Timer(set_, wantReply, slot, src);
    ApplyHolds(m, op);
    ReadTimer(Apply(m, op).buf, true, slot, src);
  }

  /** Hence a slot comes back unchanged exactly when its four times are below 160. */
  lemma SlotUnchanged(t: TimerSlot)
    ensures CanonSlot(t) == t <==> t.startHr < 160 && t.startMin < 160 && t.durHr < 160 && t.durMin < 160
  {
    hide Bcd, UnBcd, Mod160;
    BcdRoundTrip(t.startHr);
    BcdRoundTrip(t.startMin);
    BcdRoundTrip(t.durHr);
    BcdRoundTrip(t.durMin);
  }
}
