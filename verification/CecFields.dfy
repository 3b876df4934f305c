/** What the decoders take out of any buffer, built or received, by byte number:
fields are quotients and remainders instead of shifts and masks.  The
counterpart of `CecLayout` for the functions of `CecDecode`. */
module CecFields {
  import opened CecBytes
  import opened CecOps
  import opened CecWire
  import opened CecRead
  import opened CecDecode
  import opened CecLayout

  /** Two digits, one in each nibble. */
  function DigitsOf(b: bv8): bv8 { b / 16 * 10 + b % 16 }

  lemma BitFields(s: bv8)
    ensures FlagHigh(s) == s / 128 && FlagLow(s) == s % 128
    ensures Media(s) == s / 32 % 4 && Code(s) == s % 16 && (Programmed(s) <==> s / 16 % 2 == 1)
    ensures HecField(s) == s / 64 && HostField(s) == s / 16 % 4 && ErrField(s) == s % 4
    ensures LatencyFlag(s) == s / 4 % 2 && LatencyCode(s) == s % 4
    ensures High2(s) == s / 64 && Low6(s) == s % 64
    ensures ReadFormat(s) == s / 4 && UnBcd(s) == DigitsOf(s)
  {
  }

  lemma HeaderFields(h: bv8, i: bv8, d: bv8)
    ensures Initiator(h) == h / 16 && Destination(h) == h % 16
    ensures i < 16 && d < 16 ==> AddressPair(i, d) == i * 16 + d
    ensures ReplyHeader(h) == h % 16 * 16 + h / 16
  {
  }

  /** `cec_msg_init` and `cec_msg_set_reply_to`, field by field. */
  lemma InitAndReply(i: bv8, d: bv8, m: Msg, orig: Msg)
    ensures var a := Init(i, d);
            && a.len == 1 && a.reply == 0 && a.timeout == 0 && (forall k | 1 <= k < 16 :: a.buf[k] == 0)
            && (i < 16 && d < 16 ==> a.buf[0] == i * 16 + d)
    ensures var a := ReplyTo(m, orig);
            && a.len == m.len && a.reply == 0 && a.timeout == 0 && a.buf[1..] == m.buf[1..]
            && a.buf[0] == orig.buf[0] % 16 * 16 + orig.buf[0] / 16
  {
    hide AddressPair, ReplyHeader;
    HeaderFields(orig.buf[0], i, d);
    assert forall k | 1 <= k < 16 :: ZEROED[k] == 0;
  }

  lemma WordField(b: Buffer, i: nat)
    requires i + 2 <= 16
    ensures WordAt(b, i) == Num16(b, i)
  {
  }

  lemma TripleField(b: Buffer, i: nat)
    requires i + 3 <= 16
    ensures TripleAt(b, i) == Num24(b, i)
  {
  }

  /** The major number that the decoder puts together: the two low bits of the
      first byte end up in bits 6 and 7, on top of those of the second byte. */
  function MajorOf(hi: bv8, lo: bv8): bv16 { ((hi % 4 * 64) | lo) as bv16 }

  lemma MajorField(hi: bv8, lo: bv8)
    ensures ReadMajor(hi, lo) == MajorOf(hi, lo)
  {
  }

  /** Only the low byte of the word is stored to. */
  function LowReplaced(w: bv16, f: bv8): bv16 { w / 256 * 256 + f as bv16 }

  lemma FormatField(w: bv16, f: bv8)
    ensures StoreLow(w, f) == LowReplaced(w, f)
  {
  }

  lemma DigitalFields(prev: Digital, b: Buffer, i: nat)
    requires i + 7 <= 16
    ensures DecodeDigital(prev, b, i) ==
            if b[i] / 128 == 1 then
              Digital(1, b[i] % 128, LowReplaced(prev.w0, b[i + 1] / 4), MajorOf(b[i + 1], b[i + 2]), Num16(b, i + 3))
            else Digital(b[i] / 128, b[i] % 128, Num16(b, i + 1), Num16(b, i + 3), Num16(b, i + 5))
  {
    hide FlagHigh, FlagLow, ReadFormat, ReadMajor, StoreLow, WordAt, Num16, MajorOf, LowReplaced;
    BitFields(b[i]);
    BitFields(b[i + 1]);
    MajorField(b[i + 1], b[i + 2]);
    FormatField(prev.w0, ReadFormat(b[i + 1]));
    WordField(b, i + 1);
    WordField(b, i + 3);
    WordField(b, i + 5);
  }

  lemma AnalogueFields(b: Buffer, i: nat)
    requires i + 4 <= 16
    ensures ReadAnalogue(b, i) == Analogue(b[i], Num16(b, i + 1), b[i + 3])
  {
    hide WordAt, Num16;
    WordField(b, i + 1);
  }

  lemma RecordFields(prev: Digital, b: Buffer)
    ensures DecodeRecordSrc(prev, b) ==
            if b[2] == 1 then Own
            else if b[2] == 2 then DigitalSrc(DecodeDigital(prev, b, 3))
            else if b[2] == 3 then AnalogueSrc(Analogue(b[3], Num16(b, 4), b[6]))
            else if b[2] == 4 then Plug(b[3])
            else if b[2] == 5 then ExtAddress(Num16(b, 3))
            else UnknownSrc(b[2])
  {
    hide WordAt, Num16, DecodeDigital, ReadDigital;
    AnalogueFields(b, 3);
    WordField(b, 3);
  }

  lemma TunerFields(prev: Digital, b: Buffer, len: nat)
    ensures DecodeTunerService(prev, b, len) ==
            if len < 10 then AnalogueService(Analogue(b[3], Num16(b, 4), b[6]))
            else DigitalService(DecodeDigital(prev, b, 3))
  {
    hide Num16, DecodeDigital, ReadAnalogue;
    AnalogueFields(b, 3);
  }

  lemma InfoFields(b: Buffer)
    ensures var t := DecodeInfo(b);
            && t.overlap == b[2] / 128 && t.media == b[2] / 32 % 4
            && t.progInfo == (if b[2] / 16 % 2 == 1 then b[2] % 16 else 0)
            && t.progError == (if b[2] / 16 % 2 == 1 then 0 else b[2] % 16)
            && if t.progInfo == 0x9 || t.progInfo == 0xb || t.progError == 0xe then
                 t.hr == DigitsOf(b[3]) && t.min == DigitsOf(b[4])
               else t.hr == 0 && t.min == 0
  {
    hide FlagHigh, Media, Programmed, Code, UnBcd, DigitsOf;
    BitFields(b[2]);
    BitFields(b[3]);
    BitFields(b[4]);
  }

  lemma SlotFields(b: Buffer)
    ensures var t := ReadSlot(b);
            && t.day == b[2] && t.month == b[3] && t.recSeq == b[8]
            && t.startHr == DigitsOf(b[4]) && t.startMin == DigitsOf(b[5])
            && t.durHr == DigitsOf(b[6]) && t.durMin == DigitsOf(b[7])
  {
    hide UnBcd, DigitsOf;
    BitFields(b[4]);
    BitFields(b[5]);
    BitFields(b[6]);
    BitFields(b[7]);
  }

  lemma ExtTimerFields(b: Buffer)
    ensures ReadTimerSrc(MSG_SET_EXT_TIMER, b) == ExtTimer(b[9], b[10], Num16(b, 11))
  {
    hide WordAt, Num16;
    WordField(b, 11);
  }

  lemma UiFields(prev: UiCommand, b: Buffer, len: nat)
    ensures DecodeUi(prev, b, len) ==
            if len != 3 && b[2] in {0x56, 0x57, 0x60, 0x68, 0x69, 0x6a} then
              prev.(cmd := b[2], hasArg := true, first := b[3])
            else if len != 3 && len >= 7 && b[2] == 0x67 then
              UiCommand(b[2], true, b[3] / 4, MajorOf(b[3], b[4]), Num16(b, 5))
            else prev.(cmd := b[2], hasArg := false)
  {
    hide WordAt, Num16, ReadFormat, ReadMajor, MajorOf;
    BitFields(b[3]);
    MajorField(b[3], b[4]);
    WordField(b, 5);
  }

  lemma LatencyFields(b: Buffer, len: nat)
    ensures DecodeLatency(b, len) ==
            ReportLatency(Num16(b, 2), b[4], b[5] / 4 % 2, b[5] % 4, if b[5] % 4 == 3 && len >= 7 then b[6] else 0)
  {
    hide WordAt, Num16, LatencyFlag, LatencyCode;
    BitFields(b[5]);
    WordField(b, 2);
  }

  /** The third state is a second copy of the host state. */
  lemma HecReportFields(b: Buffer, len: nat)
    ensures DecodeHecReport(b, len) ==
            HecReportState(Num16(b, 5), b[7] / 64, b[7] / 16 % 4, b[7] / 16 % 4, b[7] % 4, len >= 10,
                           if len >= 10 then Num16(b, 8) else 0)
  {
    hide WordAt, Num16, HecField, HostField, ErrField;
    BitFields(b[7]);
    WordField(b, 5);
    WordField(b, 8);
  }

  lemma HecSetStateFields(b: Buffer, len: nat)
    ensures DecodeHecSetState(b, len) ==
            HecSetState(Num16(b, 5), Num16(b, 7), b[9], if len < 12 then 0xffff else Num16(b, 10),
                        if len < 14 then 0xffff else Num16(b, 12), if len < 16 then 0xffff else Num16(b, 14))
  {
    hide WordAt, Num16;
    WordField(b, 5);
    WordField(b, 7);
    WordField(b, 10);
    WordField(b, 12);
    WordField(b, 14);
  }

  /** The counts of the length-driven decoders: what lies between the fixed
      operands and `len`, up to the room there is.  A message shorter than its
      fixed operands gives an empty text, but the unsigned subtraction wraps
      around for payloads and descriptors, which then fill all their room. */
  lemma TextCounts(len: u32)
    ensures TextLength(len, 2, 14) == if len < 2 then 0 else AtMost(len - 2, 14)
    ensures TextLength(len, 3, 13) == if len < 3 then 0 else AtMost(len - 3, 13)
  {
  }

  lemma PayloadCounts(len: u32)
    ensures BlobLength(len, 2, 14) == if len < 2 then 14 else AtMost((len - 2) % 256, 14)
    ensures BlobLength(len, 5, 11) == if len < 5 then 11 else AtMost((len - 5) % 256, 11)
    ensures BlobLength(len, 2, 4) == if len < 2 then 4 else AtMost((len - 2) % 256, 4)
  {
  }

  lemma DescriptorCounts(len: u32)
    ensures DescriptorCount(len) == if len < 2 then 4 else AtMost((len - 2) / 3 % 256, 4)
  {
  }
}
