/** The decoders as the C code performs them: reads of the message, stores through
out-pointers.  Each is proved to compute the function of the same name in
`CecDecode` on every buffer and every length. */
module CecDecoders {
  import opened Options
  import opened CecBytes
  import opened CecOps
  import opened CecWire
  import opened CecRead
  import opened CecDecode
  import opened CecMessages

  method GetDigitalServiceId(m: CecMessage, at: nat, prev: Digital) returns (d: Digital)
    requires m.msg.Length == 16 && at + 7 <= 16
    ensures d == DecodeDigital(prev, m.msg[..], at)
  {
    hide FlagHigh, FlagLow, ReadFormat, ReadMajor, StoreLow, Word;
    var b := m.msg;
    d := prev.(idMethod := FlagHigh(b[at]));
    d := d.(system := FlagLow(b[at]));
    if d.ByChannel() {
      d := d.(w0 := StoreLow(d.w0, ReadFormat(b[at + 1])));
      d := d.(w1 := ReadMajor(b[at + 1], b[at + 2]));
      d := d.(w2 := Word(b[at + 3], b[at + 4]));
      return;
    }
    d := d.(w0 := Word(b[at + 1], b[at + 2]));
    d := d.(w1 := Word(b[at + 3], b[at + 4]));
    d := d.(w2 := Word(b[at + 5], b[at + 6]));
  }

  method OpsRecordOn(m: CecMessage, prev: Digital) returns (src: RecordSrc)
    requires m.msg.Length == 16
    ensures src == DecodeRecordSrc(prev, m.msg[..])
  {
    hide Word, DecodeDigital, ReadDigital;
    var b := m.msg;
    var tag := b[2];
    if tag == RECORD_SRC_OWN {
      src := Own;
    } else if tag == RECORD_SRC_DIGITAL {
      var d := GetDigitalServiceId(m, 3, prev);
      src := DigitalSrc(d);
    } else if tag == RECORD_SRC_ANALOG {
      src := AnalogueSrc(Analogue(b[3], Word(b[4], b[5]), b[6]));
    } else if tag == RECORD_SRC_EXT_PLUG {
      src := Plug(b[3]);
    } else if tag == RECORD_SRC_EXT_PHYS_ADDR {
      src := ExtAddress(Word(b[3], b[4]));
    } else {
      src := UnknownSrc(tag);
    }
  }

  method OpsTunerStatus(m: CecMessage, prev: Digital) returns (recFlag: bv8, display: bv8, service: Service)
    requires m.msg.Length == 16
    ensures recFlag == FlagHigh(m.msg[2]) && display == FlagLow(m.msg[2])
    ensures service == DecodeTunerService(prev, m.msg[..], m.len)
  {
    hide FlagHigh, FlagLow, Word, DecodeDigital;
    var b := m.msg;
    recFlag := FlagHigh(b[2]);
    display := FlagLow(b[2]);
    if m.len < 10 {
      service := AnalogueService(Analogue(b[3], Word(b[4], b[5]), b[6]));
      return;
    }
    var d := GetDigitalServiceId(m, 3, prev);
    service := DigitalService(d);
  }

  method OpsTimerStatus(m: CecMessage) returns (t: TimerInfo)
    requires m.msg.Length == 16
    ensures t == DecodeInfo(m.msg[..])
  {
    hide FlagHigh, Media, Programmed, Code, UnBcd, HasDuration;
    var b := m.msg;
    t := TimerInfo(FlagHigh(b[2]), Media(b[2]), 0, 0, 0, 0);
    if Programmed(b[2]) {
      t := t.(progInfo := Code(b[2]), progError := 0);
    } else {
      t := t.(progInfo := 0, progError := Code(b[2]));
    }
    if HasDuration(t) {
      t := t.(hr := UnBcd(b[3]));
      t := t.(min := UnBcd(b[4]));
    } else {
      t := t.(hr := 0, min := 0);
    }
  }

  /** The operands common to the six timer decoders. */
  method GetSlot(m: CecMessage) returns (t: TimerSlot)
    requires m.msg.Length == 16
    ensures t == ReadSlot(m.msg[..])
  {
    hide UnBcd;
    var b := m.msg;
    t := TimerSlot(b[2], b[3], UnBcd(b[4]), UnBcd(b[5]), UnBcd(b[6]), UnBcd(b[7]), b[8]);
  }

  /** `cec_ops_set_analogue_timer` and `cec_ops_clear_analogue_timer`. */
  method OpsAnalogueTimer(m: CecMessage) returns (t: TimerSlot, a: Analogue)
    requires m.msg.Length == 16
    ensures t == ReadSlot(m.msg[..]) && a == ReadAnalogue(m.msg[..], 9)
  {
    hide Word, ReadSlot;
    t := GetSlot(m);
    a := Analogue(m.msg[9], Word(m.msg[10], m.msg[11]), m.msg[12]);
  }

  /** `cec_ops_set_digital_timer` and `cec_ops_clear_digital_timer`. */
  method OpsDigitalTimer(m: CecMessage, prev: Digital) returns (t: TimerSlot, d: Digital)
    requires m.msg.Length == 16
    ensures t == ReadSlot(m.msg[..]) && d == DecodeDigital(prev, m.msg[..], 9)
  {
    hide ReadSlot, DecodeDigital;
    t := GetSlot(m);
    d := GetDigitalServiceId(m, 9, prev);
  }

  /** `cec_ops_set_ext_timer` and `cec_ops_clear_ext_timer`. */
  method OpsExtTimer(m: CecMessage) returns (t: TimerSlot, spec: bv8, plug: bv8, addr: bv16)
    requires m.msg.Length == 16
    ensures t == ReadSlot(m.msg[..]) && ExtTimer(spec, plug, addr) == ReadTimerSrc(MSG_SET_EXT_TIMER, m.msg[..])
  {
    hide Word, ReadSlot;
    t := GetSlot(m);
    spec := m.msg[9];
    plug := m.msg[10];
    addr := Word(m.msg[11], m.msg[12]);
  }

  /** `memcpy` of a text into the caller's buffer and its terminator. */
  method CopyText(m: CecMessage, skip: nat, cap: nat, out: array<bv8>)
    requires m.msg.Length == 16 && skip + cap <= 16 && out.Length > cap && out != m.msg
    modifies out
    ensures var n := TextLength(m.len, skip, cap);
            out[..n + 1] == m.msg[skip..skip + n] + [0] && out[n + 1..] == old(out[n + 1..])
  {
    var n := if m.len > skip then m.len - skip else 0;
    if n > cap { n := cap; }
    forall i | 0 <= i < n { out[i] := m.msg[skip + i]; }
    out[n] := 0;
  }

  /** `cec_ops_set_timer_program_title` and `cec_ops_set_osd_name`. */
  method OpsText(m: CecMessage, out: array<bv8>)
    requires m.msg.Length == 16 && out.Length >= 15 && out != m.msg
    modifies out
    ensures var n := TextLength(m.len, 2, 14);
            out[..n + 1] == m.msg[2..2 + n] + [0] && out[n + 1..] == old(out[n + 1..])
  {
    CopyText(m, 2, 14, out);
  }

  method OpsOsdString(m: CecMessage, out: array<bv8>) returns (ctl: bv8)
    requires m.msg.Length == 16 && out.Length >= 14 && out != m.msg
    modifies out
    ensures ctl == m.msg[2]
    ensures var n := TextLength(m.len, 3, 13);
            out[..n + 1] == m.msg[3..3 + n] + [0] && out[n + 1..] == old(out[n + 1..])
  {
    ctl := m.msg[2];
    CopyText(m, 3, 13, out);
  }

  /** `cec_ops_vendor_command` and `cec_ops_vendor_remote_button_down`: the
      payload pointer is an index into the message. */
  method OpsBlob(m: CecMessage) returns (size: nat, at: nat)
    requires m.msg.Length == 16
    ensures size == BlobLength(m.len, 2, 14) && at == 2 && at + size <= 16
  {
    size := (m.len - 2) % 0x100;
    if size > 14 { size := 14; }
    at := 2;
  }

  method OpsVendorCommandWithId(m: CecMessage) returns (vendor: bv32, size: nat, at: nat)
    requires m.msg.Length == 16
    ensures vendor == TripleAt(m.msg[..], 2)
    ensures size == BlobLength(m.len, 5, 11) && at == 5 && at + size <= 16
  {
    hide Triple;
    size := (m.len - 5) % 0x100;
    if size > 11 { size := 11; }
    vendor := Triple(m.msg[2], m.msg[3], m.msg[4]);
    at := 5;
  }

  method OpsFeatureAbort(m: CecMessage) returns (aborted: bv8, reason: bv8)
    requires m.msg.Length == 16
    ensures aborted == m.msg[2] && reason == m.msg[3]
  {
    aborted := m.msg[2];
    reason := m.msg[3];
  }

  /** Each of the two scanning loops of `cec_ops_report_features`. */
  method ScanExtensions(m: CecMessage, from: nat, last: nat) returns (p: nat)
    requires m.msg.Length == 16 && from <= last <= 15
    ensures from <= p <= last && forall k | from <= k < p :: m.msg[k] >= 0x80
    ensures p < last ==> m.msg[p] < 0x80
    ensures last == 14 ==> p == Stop(m.msg[..], from)
  {
    hide Ext;
    p := from;
    while p < last && Ext(m.msg[p])
      invariant from <= p <= last
      invariant forall k | from <= k < p :: m.msg[k] >= 0x80
      invariant last == 14 ==> Stop(m.msg[..], from) == Stop(m.msg[..], p)
    {
      p := p + 1;
    }
  }

  /** The results are pointers into the message, given as indices. */
  method OpsReportFeatures(m: CecMessage)
    returns (version: bv8, devTypes: bv8, rcProfile: Option<nat>, devFeatures: Option<nat>)
    requires m.msg.Length == 16
    ensures version == m.msg[2] && devTypes == m.msg[3]
    // both null exactly when no byte of msg[4..14] ends the RC profile
    ensures rcProfile.None? <==> forall k | 4 <= k <= 14 :: m.msg[k] >= 0x80
    ensures devFeatures.None? <==> rcProfile.None?
    // otherwise the RC profile starts at 4 and ends just before the device features
    ensures rcProfile.Some? ==> rcProfile.value == 4 && 5 <= devFeatures.value <= 15
    ensures rcProfile.Some? ==> m.msg[devFeatures.value - 1] < 0x80
    ensures rcProfile.Some? ==> forall k | 4 <= k < devFeatures.value - 1 :: m.msg[k] >= 0x80
    ensures rcProfile.Some? ==> devFeatures.value == Stop(m.msg[..], 4) + 1
  {
    hide Ext;
    version := m.msg[2];
    devTypes := m.msg[3];
    rcProfile, devFeatures := Some(4), None;
    var p := ScanExtensions(m, 4, 14);
    if !Ext(m.msg[p]) {
      devFeatures := Some(p + 1);
      // this scan starts on the terminator just found, so it stops at once
      var q := ScanExtensions(m, p, 15);
      assert q == p;
      p := q;
    }
    if Ext(m.msg[p]) {
      rcProfile, devFeatures := None, None;
    }
  }

  method OpsUserControlPressed(m: CecMessage, prev: UiCommand) returns (u: UiCommand)
    requires m.msg.Length == 16
    ensures u == DecodeUi(prev, m.msg[..], m.len)
  {
    hide ReadFormat, ReadMajor, Word;
    var b := m.msg;
    u := prev.(cmd := b[2]);
    u := u.(hasArg := false);
    if m.len == 3 { return; }
    if u.TakesByte() {
      u := u.(first := b[3]);
      u := u.(hasArg := true);
    } else if u.TakesChannel() {
      if m.len < 7 { return; }
      u := u.(hasArg := true);
      u := u.(first := ReadFormat(b[3]));
      u := u.(major := ReadMajor(b[3], b[4]));
      u := u.(minor := Word(b[5], b[6]));
    }
  }

  method OpsReportDescriptors(m: CecMessage, out: array<bv32>) returns (num: nat)
    requires m.msg.Length == 16 && out.Length >= 4
    modifies out
    ensures num == DescriptorCount(m.len)
    ensures out[..num] == ReadDescriptors(m.msg[..], num) && out[num..] == old(out[num..])
  {
    hide Triple;
    num := (m.len - 2) % 0x1_0000_0000 / 3 % 0x100;
    if num > 4 { num := 4; }
    for i := 0 to num
      invariant out[..i] == ReadDescriptors(m.msg[..], i)
      invariant out[i..] == old(out[i..])
    {
      out[i] := Triple(m.msg[2 + i * 3], m.msg[3 + i * 3], m.msg[4 + i * 3]);
      assert out[..i + 1] == out[..i] + [TripleAt(m.msg[..], 3 * (i + 1) - 1)];
    }
  }

  method OpsRequestDescriptors(m: CecMessage, ids: array<bv8>, codes: array<bv8>) returns (num: nat)
    requires m.msg.Length == 16 && ids.Length >= 4 && codes.Length >= 4
    requires ids != codes && ids != m.msg && codes != m.msg
    modifies ids, codes
    ensures num == BlobLength(m.len, 2, 4)
    ensures ids[..num] == MapBytes(m.msg[2..2 + num], High2) && ids[num..] == old(ids[num..])
    ensures codes[..num] == MapBytes(m.msg[2..2 + num], Low6) && codes[num..] == old(codes[num..])
  {
    hide High2, Low6;
    num := (m.len - 2) % 0x100;
    if num > 4 { num := 4; }
    for i := 0 to num
      invariant forall k | 0 <= k < i :: ids[k] == High2(m.msg[2 + k]) && codes[k] == Low6(m.msg[2 + k])
      invariant ids[i..] == old(ids[i..]) && codes[i..] == old(codes[i..])
    {
      ids[i] := High2(m.msg[2 + i]);
      codes[i] := Low6(m.msg[2 + i]);
    }
  }

  method OpsReportLatency(m: CecMessage)
    returns (addr: bv16, video: bv8, lowLatency: bv8, compensated: bv8, delay: bv8)
    requires m.msg.Length == 16
    ensures ReportLatency(addr, video, lowLatency, compensated, delay) == DecodeLatency(m.msg[..], m.len)
  {
    hide Word, LatencyFlag, LatencyCode;
    var b := m.msg;
    addr := Word(b[2], b[3]);
    video := b[4];
    lowLatency := LatencyFlag(b[5]);
    compensated := LatencyCode(b[5]);
    if compensated == 3 && m.len >= 7 {
      delay := b[6];
    } else {
      delay := 0;
    }
  }

  method OpsHecReportState(m: CecMessage)
    returns (own: bv16, target: bv16, hec: bv8, host: bv8, enc: bv8, err: bv8, hasField: bool, field: bv16)
    requires m.msg.Length == 16
    ensures own == WordAt(m.msg[..], 2)
    ensures HecReportState(target, hec, host, enc, err, hasField, field) == DecodeHecReport(m.msg[..], m.len)
  {
    hide Word, HecField, HostField, ErrField;
    var b := m.msg;
    own := Word(b[2], b[3]);
    target := Word(b[5], b[6]);
    hec := HecField(b[7]);
    host := HostField(b[7]);
    enc := HostField(b[7]);
    err := ErrField(b[7]);
    hasField := m.len >= 10;
    field := if hasField then Word(b[8], b[9]) else 0;
  }

  method OpsHecSetState(m: CecMessage)
    returns (own: bv16, a1: bv16, a2: bv16, state: bv8, a3: bv16, a4: bv16, a5: bv16)
    requires m.msg.Length == 16
    ensures own == WordAt(m.msg[..], 2)
    ensures HecSetState(a1, a2, state, a3, a4, a5) == DecodeHecSetState(m.msg[..], m.len)
  {
    hide Word;
    var b := m.msg;
    own := Word(b[2], b[3]);
    a1 := Word(b[5], b[6]);
    a2 := Word(b[7], b[8]);
    state := b[9];
    a3, a4, a5 := PHYS_ADDR_INVALID, PHYS_ADDR_INVALID, PHYS_ADDR_INVALID;
    if m.len >= 12 { a3 := Word(b[10], b[11]); }
    if m.len >= 14 { a4 := Word(b[12], b[13]); }
    if m.len >= 16 { a5 := Word(b[14], b[15]); }
  }
}
