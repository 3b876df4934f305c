/** What the `cec_ops_*` decoders that do more than copy an operand compute on
every buffer. */
module CecDecode {
  import opened CecBytes
  import opened CecOps
  import opened CecWire
  import opened CecRead

  // ---------- What the decoders compute ----------

  /** The decoder takes the two high bits of the major number for bits 6 and 7,
      where the builder had split it at bit 8. */
  function ReadMajor(b1: bv8, b2: bv8): bv16 { (((b1 & 3) as bv16) << 6) | (b2 as bv16) }

  function ReadFormat(b1: bv8): bv8 { b1 >> 2 }

  function StoreLow(w: bv16, b: bv8): bv16 { (w & 0xff00) | (b as bv16) }

  /** `cec_get_digital_service_id` into the structure `prev`; a channel leaves
      the padding byte of the union as it was. */
  function DecodeDigital(prev: Digital, b: seq<bv8>, at: nat): Digital {
    var d := prev.(idMethod := FlagHigh(At(b, at)), system := FlagLow(At(b, at)));
    if d.ByChannel() then
      d.(w0 := StoreLow(prev.w0, ReadFormat(At(b, at + 1))), w1 := ReadMajor(At(b, at + 1), At(b, at + 2)),
         w2 := WordAt(b, at + 3))
    else d.(w0 := WordAt(b, at + 1), w1 := WordAt(b, at + 3), w2 := WordAt(b, at + 5))
  }

  function DecodeRecordSrc(prev: Digital, b: seq<bv8>): RecordSrc {
    if At(b, 2) == RECORD_SRC_DIGITAL then DigitalSrc(DecodeDigital(prev, b, 3)) else ReadRecordSrc(b)
  }

  function DecodeTunerService(prev: Digital, b: seq<bv8>, len: nat): Service {
    if len < 10 then AnalogueService(ReadAnalogue(b, 3)) else DigitalService(DecodeDigital(prev, b, 3))
  }

  function Media(s: bv8): bv8 { (s >> 5) & 3 }

  function Programmed(s: bv8): bool { s & 0x10 != 0 }

  function Code(s: bv8): bv8 { s & 0xf }

  function DecodeInfo(b: seq<bv8>): TimerInfo {
    var s := At(b, 2);
    var t := if Programmed(s) then TimerInfo(FlagHigh(s), Media(s), Code(s), 0, 0, 0)
             else TimerInfo(FlagHigh(s), Media(s), 0, Code(s), 0, 0);
    if HasDuration(t) then t.(hr := UnBcd(At(b, 3)), min := UnBcd(At(b, 4))) else t
  }

  /** `cec_ops_user_control_pressed` into the structure `prev`. */
  function DecodeUi(prev: UiCommand, b: seq<bv8>, len: nat): UiCommand {
    var u := prev.(cmd := At(b, 2), hasArg := false);
    if len == 3 then u
    else if u.TakesByte() then u.(hasArg := true, first := At(b, 3))
    else if u.TakesChannel() && len >= 7 then
      u.(hasArg := true, first := ReadFormat(At(b, 3)), major := ReadMajor(At(b, 3), At(b, 4)), minor := WordAt(b, 5))
    else u
  }

  function LatencyFlag(s: bv8): bv8 { (s >> 2) & 1 }

  function DecodeLatency(b: seq<bv8>, len: nat): Op {
    var s := At(b, 5);
    ReportLatency(WordAt(b, 2), At(b, 4), LatencyFlag(s), LatencyCode(s),
                  if LatencyCode(s) == 3 && len >= 7 then At(b, 6) else 0)
  }

  function HecField(s: bv8): bv8 { s >> 6 }

  function HostField(s: bv8): bv8 { (s >> 4) & 3 }

  function ErrField(s: bv8): bv8 { s & 3 }

  /** The decoder reads the external network state from the bits of the host state. */
  function DecodeHecReport(b: seq<bv8>, len: nat): CdcOp {
    var s := At(b, 7);
    HecReportState(WordAt(b, 5), HecField(s), HostField(s), HostField(s), ErrField(s),
                   len >= 10, if len >= 10 then WordAt(b, 8) else 0)
  }

  function DecodeHecSetState(b: seq<bv8>, len: nat): CdcOp {
    HecSetState(WordAt(b, 5), WordAt(b, 7), At(b, 9),
                if len >= 12 then WordAt(b, 10) else PHYS_ADDR_INVALID,
                if len >= 14 then WordAt(b, 12) else PHYS_ADDR_INVALID,
                if len >= 16 then WordAt(b, 14) else PHYS_ADDR_INVALID)
  }

  /** The payload length that the C code derives from `len` in an unsigned
      32-bit subtraction, for a string of at most `cap` bytes behind `skip`. */
  function TextLength(len: u32, skip: nat, cap: nat): nat { if len > skip then Min(len - skip, cap) else 0 }

  /** `*size = msg->len - skip`, stored in eight bits, then clamped. */
  function BlobLength(len: u32, skip: nat, cap: nat): nat { Min((len - skip) % 0x100, cap) }

  /** `(msg->len - 2) / 3` in unsigned 32-bit arithmetic, stored in eight bits, then clamped. */
  function DescriptorCount(len: u32): nat { Min((len - 2) % 0x1_0000_0000 / 3 % 0x100, 4) }

  /** The extension bit, the top bit of a byte. */
  predicate Ext(b: bv8): (r: bool)
    ensures r <==> b >= 0x80
  {
    b & FEAT_EXT != 0
  }

  /** Where the first scan of `cec_ops_report_features` stops. */
  function Stop(b: Buffer, i: nat): (p: nat)
    requires i <= 14
    ensures i <= p <= 14
    ensures forall k | i <= k < p :: b[k] >= 0x80
    ensures p < 14 ==> b[p] < 0x80
    decreases 14 - i
  {
    if i < 14 && Ext(b[i]) then Stop(b, i + 1) else i
  }
}
