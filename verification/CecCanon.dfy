/** A call and its canonical form put the same bytes on the wire. */
module CecCanon {
  import opened CecBytes
  import opened CecOps
  import opened CecWire
  import opened CecRead

  predicate SameBytes(op: Op, p: bv8, q: bv8)
    requires Valid(op)
  {
    && Valid(Canon(op))
    && Effective(Canon(op)) == Effective(op)
    && Opcode(Canon(op)) == Opcode(op)
    && Operands(Canon(op), p, q) == Operands(op, p, q)
  }

  lemma CanonChannelWord(format: bv8, major: bv16)
    ensures var (f, m) := CanonChannel(format, major); ChannelWord(f, m) == ChannelWord(format, major)
  {
  }

  lemma SplitChannelWord(w: bv16)
    ensures ChannelWord(ChannelFormat(w), ChannelMajor(w)) == w
  {
  }

  lemma HeadParts(s: bv8)
    ensures FlagByte(1, s & 0x7f) == FlagByte(1, s)
    ensures FlagByte(0, s) == s
    ensures s >= 0x80 ==> FlagByte(1, s & 0x7f) == s
  {
  }

  lemma CanonHead(d: Digital)
    ensures DigitalHead(CanonDigital(d)) == DigitalHead(d)
  {
    hide FlagByte, CanonChannel, ChannelFormat, ChannelMajor, Lo;
    HeadParts(d.system);
    HeadParts(DigitalHead(d));
  }

  lemma FormatOfWord(f: bv8)
    ensures Lo(f as bv16) == f
  {
  }

  lemma CanonWordsChannel(d: Digital)
    requires d.ByChannel()
    ensures DigitalWords(CanonDigital(d)) == DigitalWords(d)
  {
    hide CanonChannel, ChannelWord, DigitalHead, Lo;
    CanonChannelWord(d.Format(), d.w1);
    FormatOfWord(CanonChannel(d.Format(), d.w1).0);
  }

  /** The head byte looks like a by-channel id although the call was not one. */
  lemma CanonWordsAmbiguous(d: Digital)
    requires !d.ByChannel() && DigitalHead(d) >= 0x80 && (d.Atsc() || d.w2 == 0)
    ensures DigitalWords(CanonDigital(d)) == DigitalWords(d)
  {
    hide ChannelWord, ChannelFormat, ChannelMajor, DigitalHead, Lo;
    assert DigitalWords(d) == (d.w0, d.w1, 0);
    var c := CanonDigital(d);
    assert c.ByChannel() && c.Format() == Lo(ChannelFormat(d.w0) as bv16);
    FormatOfWord(ChannelFormat(d.w0));
    SplitChannelWord(d.w0);
  }

  lemma CanonWords(d: Digital)
    ensures DigitalWords(CanonDigital(d)) == DigitalWords(d)
  {
    if d.ByChannel() {
      hide CanonDigital, DigitalHead;
      CanonWordsChannel(d);
    } else if DigitalHead(d) < 0x80 {
      hide DigitalHead;
      HeadAtsc(d);
    } else if d.Atsc() || d.w2 == 0 {
      hide CanonDigital, DigitalWords, DigitalHead;
      CanonWordsAmbiguous(d);
    } else {
      hide DigitalHead;
    }
  }

  lemma HeadAtsc(d: Digital)
    requires !d.ByChannel() && DigitalHead(d) < 0x80
    ensures CanonDigital(d).Atsc() == d.Atsc()
  {
  }

  lemma CanonDigitalBytes(d: Digital)
    ensures DigitalBytes(CanonDigital(d)) == DigitalBytes(d)
  {
    hide CanonDigital, DigitalWords, DigitalHead;
    CanonHead(d);
    CanonWords(d);
  }

  lemma CanonServiceBytes(s: Service)
    ensures ServiceBytes(CanonService(s)) == ServiceBytes(s)
  {
    hide CanonDigital, DigitalBytes;
    if s.DigitalService? { CanonDigitalBytes(s.digital); }
  }

  lemma CanonRecordSrcBytes(src: RecordSrc)
    ensures RecordSrcBytes(CanonRecordSrc(src)) == RecordSrcBytes(src)
  {
    hide CanonDigital, DigitalBytes;
    if src.DigitalSrc? { CanonDigitalBytes(src.digital); }
  }

  lemma CanonSlotBytes(t: TimerSlot)
    ensures SlotBytes(CanonSlot(t)) == SlotBytes(t)
  {
    hide Bcd;
    BcdMod(t.startHr);
    BcdMod(t.startMin);
    BcdMod(t.durHr);
    BcdMod(t.durMin);
  }

  lemma CanonTimerSrcBytes(set_: bool, src: TimerSrc)
    ensures TimerOpcode(set_, CanonTimerSrc(src)) == TimerOpcode(set_, src)
    ensures TimerSrcBytes(CanonTimerSrc(src)) == TimerSrcBytes(src)
  {
    hide CanonDigital, DigitalBytes;
    if src.DigitalTimer? { CanonDigitalBytes(src.digital); }
  }

  lemma CanonInfoByte(t: TimerInfo)
    ensures TimerInfoByte(CanonInfo(t)) == TimerInfoByte(t) && HasDuration(CanonInfo(t)) == HasDuration(t)
  {
  }

  lemma CanonInfoBytes(t: TimerInfo)
    ensures TimerInfoBytes(CanonInfo(t)) == TimerInfoBytes(t)
  {
    CanonInfoByte(t);
    hide TimerInfoByte, HasDuration, UnpackInfo, Bcd, Mod160;
    BcdMod(t.hr);
    BcdMod(t.min);
    UnpackKeeps(TimerInfoByte(t), true, Mod160(t.hr), Mod160(t.min));
  }

  lemma UnpackKeeps(b: bv8, duration: bool, hr: bv8, min: bv8)
    ensures UnpackInfo(b, duration, hr, min).hr == hr && UnpackInfo(b, duration, hr, min).min == min
  {
  }

  lemma CanonUiBytes(u: UiCommand)
    ensures UiBytes(CanonUi(u)) == UiBytes(u)
  {
    hide CanonChannel, ChannelWord, Hi, Lo;
    CanonChannelWord(u.first, u.major);
  }

  lemma Low24Bytes(d: bv32)
    ensures Byte2(Low24(d)) == Byte2(d) && Byte1(Low24(d)) == Byte1(d) && Byte0(Low24(d)) == Byte0(d)
  {
  }

  lemma {:induction false} CanonDescriptorBytes(ds: seq<bv32>)
    ensures DescriptorBytes(CanonDescriptors(ds)) == DescriptorBytes(ds)
  {
    hide Low24, Byte0, Byte1, Byte2;
    if ds != [] {
      var n := |ds| - 1;
      var c := CanonDescriptors(ds);
      assert c[..n] == CanonDescriptors(ds[..n]) && c[n] == Low24(ds[n]);
      CanonDescriptorBytes(ds[..n]);
      Low24Bytes(ds[n]);
    }
  }

  lemma LowFormatByte(id: bv8, code: bv8)
    ensures FormatByte(Low2(id), Low6(code)) == FormatByte(id, code)
  {
  }

  lemma CanonFormatBytes(ids: seq<bv8>, codes: seq<bv8>)
    requires |ids| == |codes|
    ensures FormatBytes(MapBytes(ids, Low2), MapBytes(codes, Low6)) == FormatBytes(ids, codes)
  {
    forall i | 0 <= i < |ids|
      ensures FormatByte(Low2(ids[i]), Low6(codes[i])) == FormatByte(ids[i], codes[i])
    {
      LowFormatByte(ids[i], codes[i]);
    }
    hide FormatByte, Low2, Low6;
  }

  lemma CanonLatencyByte(low: bv8, comp: bv8)
    ensures var b := LatencyByte(low, comp);
            && (comp == 3 ==> LatencyByte(LatencyMode(b), 3) == b)
            && (comp != 3 && LatencyCode(b) == 3 ==> b != 3 && LatencyByte(0, b) == b)
            && (LatencyCode(b) != 3 ==> LatencyByte(LatencyMode(b), LatencyCode(b)) == b)
  {
  }

  lemma CanonHecByte(hec: bv8, host: bv8, enc: bv8, err: bv8)
    ensures var (a, b, c, d) := CanonHec(hec, host, enc, err);
            HecStateByte(a, b, c, d) == HecStateByte(hec, host, enc, err)
  {
  }

  lemma CanonNibbleByte(hi: bv8, lo: bv8)
    ensures NibbleByte((hi | (lo >> 4)) & 0xf, lo & 0xf) == NibbleByte(hi, lo)
  {
  }

  lemma CanonFlagByte(flag: bv8, low: bv8)
    ensures FlagByte(CanonFlag(flag, low), FlagLow(low)) == FlagByte(flag, low)
    ensures FlagLow(FlagLow(low)) == FlagLow(low)
  {
  }

  lemma CanonAddrBytes(a3: bv16, a4: bv16, a5: bv16)
    ensures var (c3, c4, c5) := CanonAddrs(a3, a4, a5);
            OptionalAddrBytes([c3, c4, c5]) == OptionalAddrBytes([a3, a4, a5])
  {
    hide Hi, Lo;
    assert [a3, a4, a5][1..] == [a4, a5] && [a4, a5][1..] == [a5];
    var (c3, c4, c5) := CanonAddrs(a3, a4, a5);
    assert [c3, c4, c5][1..] == [c4, c5] && [c4, c5][1..] == [c5];
  }

  lemma CanonCdcBytes(c: CdcOp)
    ensures CdcBytes(CanonCdc(c)) == CdcBytes(c)
  {
    hide CanonHec, HecStateByte, NibbleByte, CanonAddrs, OptionalAddrBytes, Hi, Lo;
    if c.HecReportState? {
      CanonHecByte(c.hec, c.host, c.enc, c.err);
    } else if c.HecSetState? {
      CanonAddrBytes(c.addr3, c.addr4, c.addr5);
    } else if c.HpdSetState? {
      CanonNibbleByte(c.port, c.hpd);
    } else if c.HpdReportState? {
      CanonNibbleByte(c.hpd, c.hpdError);
    }
  }

  lemma SameTuning(op: Op, p: bv8, q: bv8)
    requires Valid(op) && (op.RecordOn? || op.TunerStatus? || op.SelectService?)
    ensures SameBytes(op, p, q)
  {
    hide CanonDigital, DigitalBytes, FlagByte, FlagLow, CanonFlag;
    if op.RecordOn? {
      CanonRecordSrcBytes(op.src);
    } else if op.TunerStatus? {
      CanonFlagByte(op.recFlag, op.display);
      CanonServiceBytes(op.service);
    } else {
      CanonServiceBytes(op.service);
    }
  }

  lemma SameTimers(op: Op, p: bv8, q: bv8)
    requires Valid(op) && (op.TimerStatus? || op.Timer?)
    ensures SameBytes(op, p, q)
  {
    hide TimerInfoBytes, CanonInfo, SlotBytes, CanonSlot, TimerSrcBytes, CanonTimerSrc, TimerOpcode;
    if op.TimerStatus? {
      CanonInfoBytes(op.info);
    } else {
      CanonSlotBytes(op.slot);
      CanonTimerSrcBytes(op.set_, op.timerSrc);
    }
  }

  lemma SamePayload(op: Op, p: bv8, q: bv8)
    requires Valid(op) && (op.Text? || op.OsdString? || op.Blob? || op.VendorCommandWithId? || op.SetMenuLanguage?)
    ensures SameBytes(op, p, q)
  {
    hide Low24, Byte0, Byte1, Byte2;
    if op.Text? {
      PrefixOfPrefix(op.text, 14);
    } else if op.OsdString? {
      PrefixOfPrefix(op.text, 13);
    } else if op.VendorCommandWithId? {
      Low24Bytes(op.vendor);
    }
  }

  lemma PrefixOfPrefix(s: seq<bv8>, n: nat)
    requires n <= 14
    ensures var t := s[..Min(StrLen(s), n)]; StrLen(t) == |t| <= n && t[..Min(StrLen(t), n)] == t
  {
  }

  lemma SameAudio(op: Op, p: bv8, q: bv8)
    requires Valid(op) && (op.AudioStatus? || op.ReportDescriptors? || op.RequestDescriptors? || op.ReportLatency?)
    ensures SameBytes(op, p, q)
  {
    if op.AudioStatus? {
      hide FlagByte, FlagLow, CanonFlag;
      CanonFlagByte(op.mute, op.volume);
      CanonFlagByte(op.mute, FlagLow(op.volume));
    } else if op.ReportLatency? {
      hide LatencyByte, LatencyMode, LatencyCode, Hi, Lo;
      CanonLatencyByte(op.lowLatency, op.compensated);
    } else {
      SameDescriptors(op, p, q);
    }
  }

  lemma SameDescriptors(op: Op, p: bv8, q: bv8)
    requires Valid(op) && (op.ReportDescriptors? || op.RequestDescriptors?)
    ensures SameBytes(op, p, q)
  {
    hide DescriptorBytes, CanonDescriptors, FormatBytes, MapBytes;
    var n := Min(op.num, 4);
    if op.ReportDescriptors? {
      var c := CanonDescriptors(op.descriptors[..n]);
      assert c[..Min(n, 4)] == c;
      CanonDescriptorBytes(op.descriptors[..n]);
    } else {
      var i, c := MapBytes(op.ids[..n], Low2), MapBytes(op.codes[..n], Low6);
      assert i[..Min(n, 4)] == i && c[..Min(n, 4)] == c;
      CanonFormatBytes(op.ids[..n], op.codes[..n]);
    }
  }

  lemma SameOther(op: Op, p: bv8, q: bv8)
    requires Valid(op) && (op.DeviceVendorId? || op.UserControl? || op.Cdc?)
    ensures SameBytes(op, p, q)
  {
    hide UiBytes, CanonUi, CdcBytes, CanonCdc, Low24, Byte0, Byte1, Byte2;
    if op.DeviceVendorId? {
      Low24Bytes(op.vendor);
    } else if op.UserControl? {
      CanonUiBytes(op.ui);
    } else {
      CanonCdcBytes(op.cdc);
    }
  }

  lemma SamePlain(op: Op, p: bv8, q: bv8)
    requires Valid(op)
    requires op.Bare? || op.OneByte? || op.Address? || op.RoutingChange? || op.ReportPhysicalAddr?
             || op.ReportFeatures? || op.FeatureAbort? || op.SystemAudioRequest?
    ensures SameBytes(op, p, q)
  {
    hide Hi, Lo, IsBare, IsOneByte, IsAddress;
  }

  /** The canonical form is a valid call of the same builder with the same bytes. */
  lemma CanonSameBytes(op: Op, p: bv8, q: bv8)
    requires Valid(op)
    ensures SameBytes(op, p, q)
  {
    hide SameBytes, Valid;
    if op.RecordOn? || op.TunerStatus? || op.SelectService? {
      SameTuning(op, p, q);
    } else if op.TimerStatus? || op.Timer? {
      SameTimers(op, p, q);
    } else if op.Text? || op.OsdString? || op.Blob? || op.VendorCommandWithId? || op.SetMenuLanguage? {
      SamePayload(op, p, q);
    } else if op.AudioStatus? || op.ReportDescriptors? || op.RequestDescriptors? || op.ReportLatency? {
      SameAudio(op, p, q);
    } else if op.DeviceVendorId? || op.UserControl? || op.Cdc? {
      SameOther(op, p, q);
    } else {
      SamePlain(op, p, q);
    }
  }
}
