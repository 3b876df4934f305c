/** The opcode, broadcast, reply and operand tables by number, as chapters CEC 15
and CEC 17 of the standard print them, and the proof that the calls follow them.
Nothing here is stated through the tables of `CecOps`. */
module CecTables {
  import opened CecOps
  import opened CecWire

  const BARE: set<bv8> := {0x04, 0x05, 0x06, 0x0b, 0x0d, 0x0f, 0x36, 0x45, 0x46, 0x71, 0x7d, 0x83, 0x85, 0x8b,
                           0x8c, 0x8f, 0x91, 0x9f, 0xa5, 0xc0, 0xc1, 0xc2, 0xc3, 0xc4, 0xc5, 0xff}

  const ONE_BYTE: set<bv8> := {0x08, 0x0a, 0x1a, 0x1b, 0x41, 0x42, 0x43, 0x72, 0x7e, 0x8d, 0x8e, 0x90, 0x9a, 0x9e}

  const ADDRESS: set<bv8> := {0x81, 0x82, 0x86, 0x9d, 0xa7}

  /** Messages that are only ever sent to everyone. */
  const BROADCASTS: set<bv8> := {0x32, 0x80, 0x81, 0x82, 0x84, 0x85, 0x86, 0x87, 0xa6, 0xa7, 0xa8, 0xf8}

  /** The answer that a request waits for; 0 for a message without one. */
  function Answer(b: bv8): bv8 {
    match b
    case 0x08 => 0x07
    case 0x09 => 0x0a
    case 0x0b => 0x0a
    case 0x0f => 0x09
    case 0x1a => 0x1b
    case 0x33 => 0x43
    case 0x34 => 0x35
    case 0x46 => 0x47
    case 0x70 => 0x72
    case 0x71 => 0x7a
    case 0x7d => 0x7e
    case 0x80 => 0x81
    case 0x83 => 0x84
    case 0x85 => 0x82
    case 0x8c => 0x87
    case 0x8d => 0x8e
    case 0x8f => 0x90
    case 0x91 => 0x32
    case 0x97 => 0x35
    case 0x99 => 0x43
    case 0x9f => 0x9e
    case 0xa1 => 0x43
    case 0xa2 => 0x35
    case 0xa4 => 0xa3
    case 0xa5 => 0xa6
    case 0xa7 => 0xa8
    case 0xc0 => 0xc1
    case 0xc3 => 0xc0
    case 0xc4 => 0xc5
    case 0xc5 => 0xc2
    case _ => 0
  }

  /** The opcode of a call. */
  function Number(op: Op): bv8 {
    match op
    case Bare(opcode, _) => opcode
    case OneByte(opcode, _, _) => opcode
    case Address(opcode, _, _) => opcode
    case Text(opcode, _) => opcode
    case Blob(opcode, _, _) => opcode
    case RoutingChange(_, _, _) => 0x80
    case RecordOn(_, _) => 0x09
    case TimerStatus(_) => 0x35
    case Timer(true, _, _, AnalogueTimer(_)) => 0x34
    case Timer(true, _, _, DigitalTimer(_)) => 0x97
    case Timer(true, _, _, ExtTimer(_, _, _)) => 0xa2
    case Timer(false, _, _, AnalogueTimer(_)) => 0x33
    case Timer(false, _, _, DigitalTimer(_)) => 0x99
    case Timer(false, _, _, ExtTimer(_, _, _)) => 0xa1
    case OsdString(_, _) => 0x64
    case VendorCommandWithId(_, _, _) => 0xa0
    case ReportPhysicalAddr(_, _) => 0x84
    case SetMenuLanguage(_) => 0x32
    case ReportFeatures(_, _, _, _) => 0xa6
    case TunerStatus(_, _, _) => 0x07
    case SelectService(AnalogueService(_)) => 0x92
    case SelectService(DigitalService(_)) => 0x93
    case DeviceVendorId(_) => 0x87
    case UserControl(_) => 0x44
    case FeatureAbort(_, _) => 0x00
    case AudioStatus(_, _) => 0x7a
    case SystemAudioRequest(_, _) => 0x70
    case ReportDescriptors(_, _) => 0xa3
    case RequestDescriptors(_, _, _, _) => 0xa4
    case ReportLatency(_, _, _, _, _) => 0xa8
    case Cdc(_) => 0xf8
  }

  lemma OpcodeTables(b: bv8)
    ensures IsBare(b) <==> b in BARE
    ensures IsOneByte(b) <==> b in ONE_BYTE
    ensures IsAddress(b) <==> b in ADDRESS
    ensures IsText(b) <==> b in {0x47, 0x67}
    ensures IsBlob(b) <==> b in {0x89, 0x8a}
  {
  }

  lemma OpcodeNumber(op: Op)
    ensures Opcode(op) == Number(op)
  {
  }

  lemma BroadcastTable(b: bv8)
    ensures IsBroadcast(b) <==> b in BROADCASTS
  {
  }

  lemma ReplyTable(b: bv8)
    ensures ReplyOpcode(b) == Answer(b)
  {
  }

  /** Which of the three encodings of a service id applies: the generic, cable,
      satellite and terrestrial ATSC systems have two numbers. */
  lemma DigitalCases(d: Digital)
    ensures d.ByChannel() <==> d.idMethod == 1
    ensures d.Atsc() <==> d.system in {0x01, 0x10, 0x11, 0x12}
  {
  }

  lemma CommandNumbers(u: UiCommand)
    ensures u.TakesByte() <==> u.cmd in {0x56, 0x57, 0x60, 0x68, 0x69, 0x6a}
    ensures u.TakesChannel() <==> u.cmd == 0x67
  {
  }

  lemma BroadcastNibbles(h: bv8)
    ensures AsBroadcast(h) / 16 == h / 16 && AsBroadcast(h) % 16 == 15
  {
  }

  predicate HasArgument(op: Op) {
    || op.Bare? || op.OneByte? || op.Address? || op.RoutingChange? || op.RecordOn? || op.Timer?
    || op.SystemAudioRequest? || op.RequestDescriptors?
  }

  /** What every call does to the parts of the structure that are not operands:
      the opcode is stored; the destination becomes 15 for the broadcast opcodes
      and the header stays for all others; the reply field follows the table of
      answers; the timeout stays, and so does every byte behind the message (but
      for the two address bytes of a two-byte system audio mode request). */
  lemma EveryCall(m: Msg, op: Op)
    requires Valid(op) && Effective(op)
    ensures var a := Apply(m, op);
            && 2 <= a.len <= 16 && a.buf[1] == Number(op)
            && (if a.buf[1] in BROADCASTS then a.buf[0] / 16 == m.buf[0] / 16 && a.buf[0] % 16 == 15
                else a.buf[0] == m.buf[0])
            && (Answer(a.buf[1]) == 0 ==> a.reply == m.reply)
            && (Answer(a.buf[1]) != 0 ==>
                  HasArgument(op) && a.reply == if op.reply then Answer(a.buf[1]) else 0)
            && a.timeout == m.timeout
            && forall i | a.len <= i < 16 && !(op.SystemAudioRequest? && i < 4) :: a.buf[i] == m.buf[i]
  {
    hide Apply, Opcode, ReplyOpcode, IsBroadcast, AsBroadcast, Number, Valid, Answer, Effective;
    CallIs(m, op);
    OpcodeNumber(op);
    BroadcastTable(Number(op));
    BroadcastNibbles(m.buf[0]);
    ReplyTable(Number(op));
    if Answer(Number(op)) != 0 { FlagIsArgument(op); }
  }

  lemma FlagIsArgument(op: Op)
    requires Valid(op) && Answer(Number(op)) != 0
    ensures HasArgument(op) && ReplyFlag(op) == op.reply
  {
    hide IsBare, IsOneByte, IsAddress;
  }

  lemma CallIs(m: Msg, op: Op)
    requires Valid(op) && Effective(op)
    ensures var a := Apply(m, op);
            && 2 <= a.len <= 16 && a.buf[1] == Opcode(op) && a.buf[0] == Header(op, m.buf[0])
            && a.reply == ReplyAfter(op, m.reply) && a.timeout == m.timeout
            && forall i | a.len <= i < 16 && !(op.SystemAudioRequest? && i < 4) :: a.buf[i] == m.buf[i]
  {
    hide Opcode, Operands, Header, ReplyAfter, Valid, Splice;
    BodyFits(op, m.buf[2], m.buf[3]);
    var s := [Header(op, m.buf[0])] + Body(op, m.buf[2], m.buf[3]) + Scratch(op);
    if op.SystemAudioRequest? { SystemAudioLength(op, m.buf[2], m.buf[3]); }
    SpliceIs(m.buf, s);
    assert s[1] == Opcode(op);
  }

  lemma SpliceIs(buf: Buffer, s: seq<bv8>)
    requires |s| <= 16
    ensures Splice(buf, s)[..|s|] == s && forall i | |s| <= i < 16 :: Splice(buf, s)[i] == buf[i]
    ensures forall i | 0 <= i < |s| :: Splice(buf, s)[i] == s[i]
  {
  }

  lemma SystemAudioLength(op: Op, p: bv8, q: bv8)
    requires op.SystemAudioRequest?
    ensures |Body(op, p, q)| + |Scratch(op)| <= 3
  {
  }

  /** A call of `cec_msg_record_on` with an unknown source writes no message. */
  lemma EmptyCall(m: Msg, op: Op)
    requires Valid(op) && !Effective(op)
    ensures op.RecordOn? && Apply(m, op) == m.(reply := if op.reply then 0x0a else 0)
  {
    assert Splice(m.buf, [m.buf[0]]) == m.buf;
  }
}
