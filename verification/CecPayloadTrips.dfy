/** Round trips of packed status operands, features, texts, payloads, audio
descriptors and HEC messages.  `m` is any message, as in `CecRoundTrips`. */
module CecPayloadTrips {
  import opened CecBytes
  import opened CecOps
  import opened CecWire
  import opened CecRead
  import opened CecEffects
  import opened CecInjective
  import opened CecDecode
  import opened CecTables
  import opened CecRoundTrips

  // ---------- Timer status ----------

  predicate InfoInRange(t: TimerInfo) {
    t.overlap < 2 && t.media < 4 && t.progInfo < 16 && t.progError < 16
  }

  /** What the decoder gives back of in-range operands: the error code is lost
      beside an info code, and the duration unless the surviving code calls for it. */
  function NormalInfo(t: TimerInfo): TimerInfo {
    var n := t.(progError := if t.progInfo != 0 then 0 else t.progError);
    if HasDuration(n) then n.(hr := Mod160(t.hr), min := Mod160(t.min)) else n.(hr := 0, min := 0)
  }

  lemma InfoBits(t: TimerInfo)
    requires InfoInRange(t)
    ensures var s := TimerInfoByte(t);
            && FlagHigh(s) == t.overlap && Media(s) == t.media
            && (Programmed(s) <==> t.progInfo != 0)
            && Code(s) == if t.progInfo != 0 then t.progInfo else t.progError
  {
  }

  lemma InfoRange(b: seq<bv8>)
    ensures InfoInRange(DecodeInfo(b)) && (DecodeInfo(b).progInfo == 0 || DecodeInfo(b).progError == 0)
    ensures !HasDuration(DecodeInfo(b)) ==> DecodeInfo(b).hr == 0 && DecodeInfo(b).min == 0
  {
    hide UnBcd;
  }

  /** In-range operands decode to their normal form, and the decoder reads a
      duration only from a five-byte message. */
  lemma TimerStatusRoundTrip(m: Msg, t: TimerInfo)
    requires InfoInRange(t)
    ensures var a := Apply(m, TimerStatus(t));
            && DecodeInfo(a.buf) == NormalInfo(t)
            && a.len == (if HasDuration(t) then 5 else 3)
            && (HasDuration(DecodeInfo(a.buf)) ==> a.len == 5)
  {
    hide Apply, TimerInfoByte, Bcd, UnBcd, Mod160, FlagHigh, Media, Programmed, Code, InfoInRange, HasDuration;
    ApplyHolds(m, TimerStatus(t));
    var a := Apply(m, TimerStatus(t));
    var s := a.buf[2..a.len];
    assert a.buf[2] == s[0];
    InfoBits(t);
    if HasDuration(t) {
      assert a.buf[3] == s[1] && a.buf[4] == s[2];
      UnBcdAt(a.buf, 3, t.hr);
      UnBcdAt(a.buf, 4, t.min);
    }
    SurvivingDuration(t);
    DurationCodes(t);
  }

  lemma SurvivingDuration(t: TimerInfo)
    ensures HasDuration(t.(progError := if t.progInfo != 0 then 0 else t.progError)) ==> HasDuration(t)
  {
  }

  /** The test for a duration looks only at the two codes. */
  lemma DurationCodes(t: TimerInfo)
    ensures HasDuration(TimerInfo(t.overlap, t.media, t.progInfo, 0, 0, 0)) == HasDuration(t.(progError := 0))
    ensures HasDuration(TimerInfo(t.overlap, t.media, 0, t.progError, 0, 0)) ==
            HasDuration(t.(progInfo := 0))
  {
  }

  lemma DurationByCodes(t: TimerInfo, u: TimerInfo)
    requires t.progInfo == u.progInfo && t.progError == u.progError
    ensures HasDuration(t) == HasDuration(u)
  {
  }

  lemma NormalInfoIdempotent(t: TimerInfo)
    ensures NormalInfo(NormalInfo(t)) == NormalInfo(t)
  {
    hide Mod160, HasDuration;
    Mod160Idempotent(t.hr);
    Mod160Idempotent(t.min);
    var n := t.(progError := if t.progInfo != 0 then 0 else t.progError);
    DurationByCodes(n, NormalInfo(t));
  }

  /** The canonical form in terms of in-range operands: the overlap, media and info
      fields stay, an error code beside an info code is lost unless it is what
      calls for the duration, and the duration counts only where one is sent. */
  lemma CanonInfoInRange(t: TimerInfo)
    requires InfoInRange(t)
    ensures var spaceCode := t.progInfo == PROG_INFO_NOT_ENOUGH_SPACE
                             || t.progInfo == PROG_INFO_MIGHT_NOT_BE_ENOUGH_SPACE;
            var err := if t.progInfo == 0 || (!spaceCode && t.progError == PROG_ERROR_DUPLICATE)
                       then t.progError else 0;
            CanonInfo(t) == if HasDuration(t) then t.(progError := err, hr := Mod160(t.hr), min := Mod160(t.min))
                            else t.(progError := err, hr := 0, min := 0)
  {
    hide Mod160;
  }

  lemma Mod160Idempotent(v: bv8)
    ensures Mod160(Mod160(v)) == Mod160(v)
  {
  }

  /** For all operands, in range or not: they come back unchanged exactly when
      each fits its field, at most one code is given, and the duration is below
      160 where a code calls for it and zero elsewhere. */
  lemma TimerStatusUnchanged(m: Msg, t: TimerInfo)
    ensures DecodeInfo(Apply(m, TimerStatus(t)).buf) == t <==>
            && InfoInRange(t) && (t.progInfo == 0 || t.progError == 0)
            && if HasDuration(t) then t.hr < 160 && t.min < 160 else t.hr == 0 && t.min == 0
  {
    hide Apply, DecodeInfo, InfoInRange, Mod160, HasDuration;
    var b := Apply(m, TimerStatus(t)).buf;
    InfoRange(b);
    BcdRoundTrip(t.hr);
    BcdRoundTrip(t.min);
    if InfoInRange(t) { TimerStatusRoundTrip(m, t); }
  }

  // ---------- User control ----------

  /** The command always comes back; an operand is reported exactly when the
      command takes one and the call had one; a byte operand comes back, a
      channel keeps its minor number, and format and major number exactly when
      they are below 64 and 256. */
  lemma UserControlRoundTrip(m: Msg, u: UiCommand, prev: UiCommand)
    ensures var a := Apply(m, UserControl(u));
            var r := DecodeUi(prev, a.buf, a.len);
            && r.cmd == u.cmd
            && (r.hasArg <==> u.hasArg && (u.cmd in {0x56, 0x57, 0x60, 0x68, 0x69, 0x6a} || u.cmd == 0x67))
            && (r.hasArg && u.cmd in {0x56, 0x57, 0x60, 0x68, 0x69, 0x6a} ==> r.first == u.first)
            && (r.hasArg && u.cmd == 0x67 ==>
                  && r.minor == u.minor
                  && (r.first == u.first && r.major == u.major <==> u.first < 64 && u.major < 256))
            && (!r.hasArg ==> r == prev.(cmd := u.cmd, hasArg := false))
  {
    hide UiCommand.TakesByte, UiCommand.TakesChannel;
    hide Apply, UiBytes, ChannelHigh, ReadFormat, ReadMajor, CanonChannel, DecodedMajor, Hi, Lo, WordAt;
    ApplyHolds(m, UserControl(u));
    var a := Apply(m, UserControl(u));
    var s := a.buf[2..a.len];
    UiBytesAre(u);
    assert a.buf[2] == s[0];
    CommandDecides(u, prev);
    CommandNumbers(u);
    if u.hasArg && u.TakesByte() {
      assert a.buf[3] == s[1];
    } else if u.hasArg && u.TakesChannel() {
      assert a.buf[3] == s[1] && a.buf[4] == s[2] && a.buf[5] == s[3] && a.buf[6] == s[4];
      WordAtBytes(a.buf, 5, u.minor);
      ChannelBits(u.first, u.major);
      ChannelExact(u.first, u.major);
    }
  }

  lemma CommandDecides(u: UiCommand, prev: UiCommand)
    ensures var v := prev.(cmd := u.cmd, hasArg := false);
            v.TakesByte() == u.TakesByte() && v.TakesChannel() == u.TakesChannel()
    ensures !(u.TakesByte() && u.TakesChannel())
  {
  }

  lemma ChannelExact(format: bv8, major: bv16)
    ensures CanonChannel(format, major).0 == format && DecodedMajor(major) == major <==> format < 64 && major < 256
  {
  }

  // ---------- Report features ----------

  /** The decoder returns pointers and not null. */
  predicate Accepted(b: Buffer) { b[Stop(b, 4)] < 0x80 }

  /** The four operands are stored where the decoder looks for them, and its
      device features pointer is 5, where the builder put that operand, exactly
      when the RC profile has no extension bit; such a message is accepted.  With
      the bit set the outcome is no longer decided by the operands alone: the
      pointer lies at 6 or later, behind the six bytes of the message, and if the
      device features have the bit too, acceptance depends on what the buffer held
      before. */
  lemma ReportFeaturesRoundTrip(m: Msg, version: bv8, devTypes: bv8, rcProfile: bv8, devFeatures: bv8)
    ensures var a := Apply(m, ReportFeatures(version, devTypes, rcProfile, devFeatures));
            var b := a.buf;
            && a.len == 6
            && b[2] == version && b[3] == devTypes && b[4] == rcProfile && b[5] == devFeatures
            && (Stop(b, 4) + 1 == 5 <==> rcProfile < 0x80)
            && (rcProfile >= 0x80 ==> Stop(b, 4) + 1 >= a.len && b[6..] == m.buf[6..])
            && (Accepted(b) <==> rcProfile < 0x80 || devFeatures < 0x80 || exists k | 6 <= k <= 14 :: m.buf[k] < 0x80)
  {
    hide Apply, AsBroadcast, Stop, Accepted;
    ReportFeaturesEffect(m, version, devTypes, rcProfile, devFeatures);
    var b := Apply(m, ReportFeatures(version, devTypes, rcProfile, devFeatures)).buf;
    assert forall k | 6 <= k < 16 :: b[k] == m.buf[k];
    FeaturesOutcome(b);
  }

  /** The outcome by the first two bytes that the scan looks at. */
  lemma FeaturesOutcome(b: Buffer)
    ensures Stop(b, 4) == 4 <==> b[4] < 0x80
    ensures Accepted(b) <==> b[4] < 0x80 || b[5] < 0x80 || exists k | 6 <= k <= 14 :: b[k] < 0x80
  {
    FeaturesAccepted(b);
    if Accepted(b) && b[4] >= 0x80 && b[5] >= 0x80 {
      var k :| 4 <= k <= 14 && b[k] < 0x80;
      assert 6 <= k <= 14;
    }
  }

  /** Device features that start at `from` are terminated inside the buffer. */
  predicate Terminated(b: Buffer, from: nat) { exists k | from <= k < 16 :: b[k] < 0x80 }

  /** The second scan checks nothing: this buffer is accepted although every byte
      from the device features to the end of the buffer carries the extension bit. */
  lemma UnterminatedFeaturesAccepted()
    ensures var b: Buffer := [0x0f, 0xa6, 6, 0x80, 0x00, 0x80, 0x80, 0x80,
                              0x80, 0x80, 0x80, 0x80, 0x80, 0x80, 0x80, 0x80];
            Accepted(b) && Stop(b, 4) + 1 == 5 && !Terminated(b, 5)
  {
  }

  /** A buffer is accepted exactly when some byte of msg[4..14] ends the RC
      profile.  Its device features are terminated too exactly when a second,
      later byte has no extension bit; the decoder does not check that. */
  lemma FeaturesAccepted(b: Buffer)
    ensures Accepted(b) <==> exists k | 4 <= k <= 14 :: b[k] < 0x80
    ensures Accepted(b) ==>
              (Terminated(b, Stop(b, 4) + 1) <==>
               exists j, k | 4 <= j <= 14 && j < k <= 15 :: b[j] < 0x80 && b[k] < 0x80)
  {
    var p := Stop(b, 4);
    if b[p] < 0x80 {
      if Terminated(b, p + 1) {
        var k :| p + 1 <= k < 16 && b[k] < 0x80;
        assert b[p] < 0x80 && b[k] < 0x80;
      }
      if j, k :| 4 <= j <= 14 && j < k <= 15 && b[j] < 0x80 && b[k] < 0x80 {
        assert p <= j;
        assert p + 1 <= k < 16 && b[k] < 0x80;
      }
    }
  }

  // ---------- Texts and payloads ----------

  /** Title and OSD name: the decoder copies the transmitted prefix. */
  lemma TextRoundTrip(m: Msg, opcode: bv8, text: seq<bv8>)
    requires IsText(opcode) && 0 !in text
    ensures var a := Apply(m, Text(opcode, text));
            var n := TextLength(a.len, 2, 14);
            n == Min(StrLen(text), 14) && a.buf[2..2 + n] == text[..n] && 0 !in a.buf[2..2 + n]
  {
    hide Apply, StrLen, IsText;
    ApplyHolds(m, Text(opcode, text));
    PrefixFits(text, 14);
  }

  lemma OsdStringRoundTrip(m: Msg, ctl: bv8, text: seq<bv8>)
    requires 0 !in text
    ensures var a := Apply(m, OsdString(ctl, text));
            var n := TextLength(a.len, 3, 13);
            a.buf[2] == ctl && n == Min(StrLen(text), 13) && a.buf[3..3 + n] == text[..n] && 0 !in a.buf[3..3 + n]
  {
    hide Apply, StrLen;
    ApplyHolds(m, OsdString(ctl, text));
    PrefixFits(text, 13);
    var a := Apply(m, OsdString(ctl, text));
    var n := Min(StrLen(text), 13);
    assert a.buf[2] == a.buf[2..a.len][0] && a.buf[3..3 + n] == a.buf[2..a.len][1..];
  }

  /** The prefix is the longest that fits exactly when the 32-bit length was not
      cut to something shorter. */
  lemma PrefixIsLongest(text: seq<bv8>, cap: nat)
    ensures Min(StrLen(text), cap) == Min(|text|, cap) <==> |text| < 0x1_0000_0000 || StrLen(text) >= cap
  {
    if |text| < 0x1_0000_0000 {
      assert StrLen(text) == |text|;
    } else {
      assert StrLen(text) < 0x1_0000_0000 <= |text|;
    }
  }

  lemma BlobRoundTrip(m: Msg, opcode: bv8, size: u8, data: seq<bv8>)
    requires IsBlob(opcode) && Min(size, 14) <= |data|
    ensures var a := Apply(m, Blob(opcode, size, data));
            var n := BlobLength(a.len, 2, 14);
            n == Min(size, 14) && a.buf[2..2 + n] == data[..n]
  {
    hide Apply, IsBlob;
    ApplyHolds(m, Blob(opcode, size, data));
  }

  /** The vendor id comes back without its top byte. */
  lemma VendorCommandWithIdRoundTrip(m: Msg, vendor: bv32, size: u8, data: seq<bv8>)
    requires Min(size, 11) <= |data|
    ensures var a := Apply(m, VendorCommandWithId(vendor, size, data));
            var n := BlobLength(a.len, 5, 11);
            && n == Min(size, 11) && a.buf[5..5 + n] == data[..n]
            && TripleAt(a.buf, 2) == Low24(vendor)
  {
    hide Apply, Byte0, Byte1, Byte2, TripleAt, Low24;
    var op := VendorCommandWithId(vendor, size, data);
    ApplyHolds(m, op);
    var a := Apply(m, op);
    var s := a.buf[2..a.len];
    assert a.buf[2] == s[0] && a.buf[3] == s[1] && a.buf[4] == s[2];
    assert a.buf[5..a.len] == s[3..];
    TripleAtBytes(a.buf, 2, vendor);
  }

  // ---------- Audio ----------

  lemma {:induction false} CanonDescriptorAt(ds: seq<bv32>, i: nat)
    requires i < |ds|
    ensures CanonDescriptors(ds)[i] == Low24(ds[i])
  {
    hide Low24;
    if i < |ds| - 1 { CanonDescriptorAt(ds[..|ds| - 1], i); }
  }

  /** Short audio descriptors: for any count, the first four at most come back,
      each modulo 2^24, and the bytes behind the message are untouched. */
  lemma ReportDescriptorsRoundTrip(m: Msg, num: u8, ds: seq<bv32>)
    requires Min(num, 4) <= |ds|
    ensures var a := Apply(m, ReportDescriptors(num, ds));
            var n := DescriptorCount(a.len);
            && n == Min(num, 4) && a.len == 2 + 3 * n && a.buf[a.len..] == m.buf[a.len..]
            && forall i | 0 <= i < n :: ReadDescriptors(a.buf, n)[i] == Low24(ds[i])
  {
    hide Apply, Low24, ReadDescriptors, CanonDescriptors, DescriptorCount, DescriptorBytes, Put;
    var n := Min(num, 4);
    var op := ReportDescriptors(num, ds);
    ReportDescriptorsEffect(m, num, ds);
    var a := Apply(m, op);
    PutPieces(m.buf[1 := MSG_REPORT_SHORT_AUDIO_DESCRIPTOR], DescriptorBytes(ds[..n]));
    CountOfLength(n);
    ReadDescriptorBytes(a.buf, ds[..n]);
    forall i | 0 <= i < n
      ensures CanonDescriptors(ds[..n])[i] == Low24(ds[i])
    {
      CanonDescriptorAt(ds[..n], i);
    }
  }

  lemma CountOfLength(n: nat)
    requires n <= 4
    ensures DescriptorCount(2 + 3 * n) == n
  {
  }

  lemma PutPieces(b: Buffer, s: seq<bv8>)
    requires |s| <= 14
    ensures Put(b, 2, s)[2..2 + |s|] == s && Put(b, 2, s)[2 + |s|..] == b[2 + |s|..]
  {
  }

  lemma RequestDescriptorsRoundTrip(m: Msg, wantReply: bool, num: u8, ids: seq<bv8>, codes: seq<bv8>)
    requires Min(num, 4) <= |ids| && Min(num, 4) <= |codes|
    ensures var a := Apply(m, RequestDescriptors(wantReply, num, ids, codes));
            var n := BlobLength(a.len, 2, 4);
            && n == Min(num, 4) && a.len == 2 + n && a.buf[a.len..] == m.buf[a.len..]
            && MapBytes(a.buf[2..2 + n], High2) == MapBytes(ids[..n], Low2)
            && MapBytes(a.buf[2..2 + n], Low6) == MapBytes(codes[..n], Low6)
  {
    hide Apply, FormatBytes, MapBytes, Put;
    var n := Min(num, 4);
    RequestDescriptorsEffect(m, wantReply, num, ids, codes);
    var a := Apply(m, RequestDescriptors(wantReply, num, ids, codes));
    PutPieces(m.buf[1 := MSG_REQUEST_SHORT_AUDIO_DESCRIPTOR], FormatBytes(ids[..n], codes[..n]));
    ReadFormats(a.buf[2..2 + n], ids[..n], codes[..n]);
  }

  lemma LatencyBits(low: bv8, comp: bv8)
    ensures LatencyCode(LatencyByte(low, comp)) == comp & 3
    ensures comp < 4 ==> LatencyFlag(LatencyByte(low, comp)) == low & 1
    ensures LatencyFlag(LatencyByte(low, comp)) < 2
    ensures comp < 4 <==> comp & 3 == comp
    ensures low < 2 <==> low & 1 == low
  {
  }

  /** The canonical form of a latency report whose code and mode fit the byte
      keeps everything but a delay that is not sent. */
  lemma CanonLatencyInRange(addr: bv16, video: bv8, low: bv8, comp: bv8, delay: bv8)
    requires low < 64 && comp < 4
    ensures CanonLatency(addr, video, low, comp, delay) ==
            ReportLatency(addr, video, low, comp, if comp == 3 then delay else 0)
  {
    LatencyFields(low, comp);
  }

  lemma LatencyFields(low: bv8, comp: bv8)
    requires low < 64 && comp < 4
    ensures LatencyMode(LatencyByte(low, comp)) == low && LatencyCode(LatencyByte(low, comp)) == comp
  {
  }

  /** A latency report comes back exactly when mode and compensation code fit
      their fields and a delay is given only with code 3. */
  lemma ReportLatencyRoundTrip(m: Msg, addr: bv16, video: bv8, low: bv8, comp: bv8, delay: bv8)
    ensures var op := ReportLatency(addr, video, low, comp, delay);
            var a := Apply(m, op);
            DecodeLatency(a.buf, a.len) == op <==> low < 2 && comp < 4 && (comp == 3 || delay == 0)
  {
    hide Apply, AsBroadcast, LatencyByte, LatencyFlag, LatencyCode, Hi, Lo, WordAt;
    ReportLatencyEffect(m, addr, video, low, comp, delay);
    var a := Apply(m, ReportLatency(addr, video, low, comp, delay));
    WordAtBytes(a.buf, 2, addr);
    LatencyBits(low, comp);
  }

  // ---------- HEC ----------

  lemma HecBits(hec: bv8, host: bv8, enc: bv8, err: bv8)
    ensures var s := HecStateByte(hec, host, enc, err);
            && (hec < 4 && host < 4 && enc < 4 && err < 4 ==>
                  HecField(s) == hec && HostField(s) == host && ErrField(s) == err)
            && HecField(s) < 4 && HostField(s) < 4 && ErrField(s) < 4
  {
  }

  lemma HecReportHolds(m: Msg, c: CdcOp)
    requires c.HecReportState?
    ensures var a := Apply(m, Cdc(c));
            && a.len == (if c.hasField then 10 else 8)
            && WordAt(a.buf, 5) == c.target && a.buf[7] == HecStateByte(c.hec, c.host, c.enc, c.err)
            && (c.hasField ==> WordAt(a.buf, 8) == c.field)
  {
    hide Apply, CdcBytes, HecStateByte, WordAt;
    ApplyHolds(m, Cdc(c));
    var a := Apply(m, Cdc(c));
    assert a.buf[4..a.len] == a.buf[2..a.len][2..];
    HecReportBytes(a.buf, a.len, c);
  }

  /** With every state in its two bits, all of a report comes back except the
      external network state, which is read from the host state. */
  lemma HecReportDecoded(m: Msg, c: CdcOp)
    requires c.HecReportState? && c.hec < 4 && c.host < 4 && c.enc < 4 && c.err < 4
    ensures var a := Apply(m, Cdc(c));
            DecodeHecReport(a.buf, a.len) == c.(enc := c.host, field := if c.hasField then c.field else 0)
  {
    hide Apply, HecStateByte, HecField, HostField, ErrField, WordAt;
    HecReportHolds(m, c);
    HecBits(c.hec, c.host, c.enc, c.err);
  }

  /** Hence, over all operands, a report comes back unchanged exactly when every
      state fits two bits, the two network states are equal, and a field value
      is given only together with its flag. */
  lemma HecReportRoundTrip(m: Msg, c: CdcOp)
    requires c.HecReportState?
    ensures var a := Apply(m, Cdc(c));
            DecodeHecReport(a.buf, a.len) == c <==>
            c.hec < 4 && c.host < 4 && c.err < 4 && c.enc == c.host && (c.hasField || c.field == 0)
  {
    hide Apply, HecStateByte, HecField, HostField, ErrField, WordAt;
    HecReportHolds(m, c);
    HecBits(c.hec, c.host, c.enc, c.err);
  }

  /** No valid address stands behind an invalid one. */
  predicate PrefixClosed(a3: bv16, a4: bv16, a5: bv16) {
    && (a3 == PHYS_ADDR_INVALID ==> a4 == PHYS_ADDR_INVALID)
    && (a4 == PHYS_ADDR_INVALID ==> a5 == PHYS_ADDR_INVALID)
  }

  /** The mandatory operands always come back; the optional addresses come back
      as the longest prefix of valid ones, with the matching length. */
  lemma HecSetStateDecoded(m: Msg, c: CdcOp)
    requires c.HecSetState?
    ensures var a := Apply(m, Cdc(c));
            var (c3, c4, c5) := CanonAddrs(c.addr3, c.addr4, c.addr5);
            && DecodeHecSetState(a.buf, a.len) == c.(addr3 := c3, addr4 := c4, addr5 := c5)
            && a.len == if c3 == PHYS_ADDR_INVALID then 10
                        else if c4 == PHYS_ADDR_INVALID then 12
                        else if c5 == PHYS_ADDR_INVALID then 14
                        else 16
  {
    hide Apply, CdcBytes, WordAt;
    ApplyHolds(m, Cdc(c));
    var a := Apply(m, Cdc(c));
    assert a.buf[4..a.len] == a.buf[2..a.len][2..];
    ReadHecSetState(a.buf, a.len, c);
    HecSetStateLength(c);
    HecSetStateTag(a.buf, a.len, c);
  }

  lemma HecSetStateLength(c: CdcOp)
    requires c.HecSetState?
    ensures |CdcBytes(c)| == if c.addr3 == PHYS_ADDR_INVALID then 6
                             else if c.addr4 == PHYS_ADDR_INVALID then 8
                             else if c.addr5 == PHYS_ADDR_INVALID then 10
                             else 12
  {
    hide Hi, Lo;
    OptionalAddrs(c.addr3, c.addr4, c.addr5);
  }

  lemma HecSetStateTag(b: seq<bv8>, len: nat, c: CdcOp)
    requires c.HecSetState? && HoldsCdc(b, len, c)
    ensures len >= 10 && At(b, 4) == CDC_HEC_INQUIRE_STATE
  {
    hide Hi, Lo;
    assert b[4] == b[4..len][0];
  }

  /** All addresses come back exactly when their validity is prefix-closed. */
  lemma HecSetStateRoundTrip(m: Msg, c: CdcOp)
    requires c.HecSetState?
    ensures var a := Apply(m, Cdc(c));
            DecodeHecSetState(a.buf, a.len) == c <==> PrefixClosed(c.addr3, c.addr4, c.addr5)
  {
    hide Apply, DecodeHecSetState;
    HecSetStateDecoded(m, c);
  }

  /** `cec_msg_cdc_hec_set_state` stores the sub-opcode of INQUIRE_STATE, so its
      first nine bytes are those of an inquiry for the same addresses, and no
      call of any builder ever sends the sub-opcode SET_STATE (3). */
  lemma HecSetStateLooksLikeInquiry(m: Msg, c: CdcOp)
    requires c.HecSetState?
    ensures Apply(m, Cdc(c)).buf[..9] == Apply(m, Cdc(HecInquireState(c.addr1, c.addr2))).buf[..9]
    ensures Apply(m, Cdc(HecInquireState(c.addr1, c.addr2))).len == 9 < Apply(m, Cdc(c)).len
  {
    hide Apply, Hi, Lo, AsBroadcast, AddrTail;
    HecSetStateEffect(m, c.addr1, c.addr2, c.state, c.addr3, c.addr4, c.addr5);
    HecInquireStateEffect(m, c.addr1, c.addr2);
  }

  lemma NoSetStateSubOpcode(m: Msg, c: CdcOp)
    ensures Apply(m, Cdc(c)).buf[4] != 3
  {
    hide Apply, AsBroadcast;
    CdcEffect(m, c);
    SubOpcodes(c);
  }

  lemma SubOpcodes(c: CdcOp)
    ensures CdcBytes(c)[0] != 3
  {
    hide Hi, Lo, HecStateByte, NibbleByte;
  }
}
