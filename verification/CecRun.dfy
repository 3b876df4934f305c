/** Whole histories of one message: any sequence of builder calls and replies. */
module CecRun {
  import opened Options
  import opened CecBytes
  import opened CecOps
  import opened CecWire
  import opened CecRead
  import opened CecEffects
  import opened CecSeparation

  datatype Step =
    | Build(op: Op)
    | Arm(src: RecordSrc)       // one arm of record_on called on its own
    | ReplyToOther(orig: Msg)   // cec_msg_set_reply_to(msg, orig)
    | ReplyToSelf               // cec_msg_set_reply_to(msg, msg)
    | ReplyAbort(reason: bv8)   // cec_msg_reply_feature_abort(msg, reason)

  predicate ValidStep(s: Step) {
    match s
    case Build(op) => Valid(op)
    case Arm(src) => !src.UnknownSrc?
    case _ => true
  }

  predicate IsReply(s: Step) { s.ReplyToOther? || s.ReplyToSelf? || s.ReplyAbort? }

  predicate Broadcasts(s: Step)
    requires ValidStep(s)
  {
    s.Build? && Effective(s.op) && IsBroadcast(Opcode(s.op))
  }

  function Next(m: Msg, s: Step): Msg
    requires ValidStep(s)
  {
    match s
    case Build(op) => Apply(m, op)
    case Arm(src) => RecordArm(m, src)
    case ReplyToOther(orig) => ReplyTo(m, orig)
    case ReplyToSelf => ReplyTo(m, m)
    case ReplyAbort(reason) => Apply(ReplyTo(m, m), FeatureAbort(m.buf[1], reason))
  }

  predicate ValidSteps(ss: seq<Step>) { forall i | 0 <= i < |ss| :: ValidStep(ss[i]) }

  function Run(m: Msg, ss: seq<Step>): Msg
    requires ValidSteps(ss)
  {
    if ss == [] then m else Next(Run(m, ss[..|ss| - 1]), ss[|ss| - 1])
  }

  // ---------- Length ----------

  lemma ApplyLen(m: Msg, op: Op)
    requires Valid(op) && 1 <= m.len <= 16
    ensures 1 <= Apply(m, op).len <= 16
  {
    hide Apply, Effective, Valid;
    if Effective(op) { WireOfApply(m, op); } else { WireOfNothing(m, op); }
  }

  lemma NextLen(m: Msg, s: Step)
    requires ValidStep(s) && 1 <= m.len <= 16
    ensures 1 <= Next(m, s).len <= 16
  {
    hide Apply, Valid;
    match s
    case Build(op) => ApplyLen(m, op);
    case Arm(src) => ArmValid(src); ApplyLen(m, RecordOn(false, src));
    case ReplyAbort(reason) => AbortValid(m, reason); ApplyLen(ReplyTo(m, m), FeatureAbort(m.buf[1], reason));
    case _ =>
  }

  lemma ArmValid(src: RecordSrc)
    requires !src.UnknownSrc?
    ensures Valid(RecordOn(false, src))
  {
  }

  lemma AbortValid(m: Msg, reason: bv8)
    ensures Valid(FeatureAbort(m.buf[1], reason)) && Effective(FeatureAbort(m.buf[1], reason))
  {
  }

  /** From `cec_msg_init` on, every history keeps the length between 1 and the
      size of the buffer. */
  lemma {:induction false} RunLength(initiator: bv8, destination: bv8, ss: seq<Step>)
    requires ValidSteps(ss)
    ensures 1 <= Run(Init(initiator, destination), ss).len <= MAX_MSG_SIZE
  {
    hide Next, ValidStep;
    if ss == [] {
    } else {
      var last := ss[|ss| - 1];
      RunLength(initiator, destination, ss[..|ss| - 1]);
      NextLen(Run(Init(initiator, destination), ss[..|ss| - 1]), last);
    }
  }

  // ---------- Addresses ----------

  lemma HeaderNibbles(h: bv8, i: bv8, d: bv8)
    ensures Initiator(AsBroadcast(h)) == Initiator(h) && Destination(AsBroadcast(h)) == 0xf
    ensures AddressPair(Initiator(h), Destination(h)) == h
    ensures Initiator(ReplyHeader(h)) == Destination(h) && Destination(ReplyHeader(h)) == Initiator(h)
    ensures i < 16 && d < 16 ==> Initiator(AddressPair(i, d)) == i && Destination(AddressPair(i, d)) == d
  {
  }

  lemma ApplyHeader(m: Msg, op: Op)
    requires Valid(op)
    ensures Apply(m, op).buf[0] == Header(op, m.buf[0])
  {
    hide Valid, Operands, Opcode, Header;
  }

  lemma BuildHeader(m: Msg, s: Step)
    requires ValidStep(s) && !IsReply(s)
    ensures Initiator(Next(m, s).buf[0]) == Initiator(m.buf[0])
    ensures Destination(Next(m, s).buf[0]) == if Broadcasts(s) then 0xf else Destination(m.buf[0])
  {
    hide Apply, AsBroadcast, Initiator, Destination, Valid, IsBroadcast, AddressPair, ReplyHeader;
    HeaderNibbles(m.buf[0], 0, 0);
    if s.Build? {
      ApplyHeader(m, s.op);
    } else {
      ArmHeader(m, s.src);
    }
  }

  lemma ArmHeader(m: Msg, src: RecordSrc)
    requires !src.UnknownSrc?
    ensures RecordArm(m, src).buf[0] == m.buf[0]
  {
    hide Apply;
    ApplyHeader(m, RecordOn(false, src));
  }

  /** Over any number of builder calls the initiator stays, and the destination
      is the broadcast address from the first broadcast builder on. */
  lemma {:induction false} BuildsKeepAddresses(m: Msg, ss: seq<Step>)
    requires ValidSteps(ss) && forall i | 0 <= i < |ss| :: !IsReply(ss[i])
    ensures Initiator(Run(m, ss).buf[0]) == Initiator(m.buf[0])
    ensures Destination(Run(m, ss).buf[0]) ==
            if exists i | 0 <= i < |ss| :: Broadcasts(ss[i]) then 0xf else Destination(m.buf[0])
  {
    hide Next, Initiator, Destination, ValidStep, IsReply, Broadcasts;
    if ss == [] {
    } else {
      var n := |ss| - 1;
      var front := ss[..n];
      BuildsKeepAddresses(m, front);
      BuildHeader(Run(m, front), ss[n]);
      assert forall i | 0 <= i < n :: front[i] == ss[i];
      assert (exists i | 0 <= i < |ss| :: Broadcasts(ss[i])) <==>
             Broadcasts(ss[n]) || exists i | 0 <= i < n :: Broadcasts(front[i]);
    }
  }

  /** A reply exchanges the addresses of the message it answers. */
  lemma ReplySwaps(m: Msg, s: Step)
    requires ValidStep(s) && IsReply(s)
    ensures var h := if s.ReplyToOther? then s.orig.buf[0] else m.buf[0];
            && Initiator(Next(m, s).buf[0]) == Destination(h)
            && Destination(Next(m, s).buf[0]) == Initiator(h)
    ensures Next(m, s).reply == 0 && Next(m, s).timeout == 0
  {
    hide Apply, Initiator, Destination, AddressPair, ReplyHeader;
    HeaderNibbles(m.buf[0], 0, 0);
    if s.ReplyToOther? { HeaderNibbles(s.orig.buf[0], 0, 0); }
    if s.ReplyAbort? { FeatureAbortEffect(ReplyTo(m, m), m.buf[1], s.reason); }
  }

  lemma {:induction false} RunConcat(m: Msg, ss: seq<Step>, tt: seq<Step>)
    requires ValidSteps(ss) && ValidSteps(tt)
    ensures ValidSteps(ss + tt) && Run(m, ss + tt) == Run(Run(m, ss), tt)
  {
    hide Next, ValidStep;
    if tt == [] {
      assert ss + tt == ss;
    } else {
      var n := |tt| - 1;
      RunConcat(m, ss, tt[..n]);
      assert (ss + tt)[..|ss + tt| - 1] == ss + tt[..n];
    }
  }

  /** Any history that contains a reply: only the last reply and the builders
      after it decide the addresses. */
  lemma RunAddresses(m: Msg, before: seq<Step>, r: Step, after: seq<Step>)
    requires ValidSteps(before) && ValidStep(r) && IsReply(r)
    requires ValidSteps(after) && forall i | 0 <= i < |after| :: !IsReply(after[i])
    ensures ValidSteps(before + [r] + after)
    ensures var h := if r.ReplyToOther? then r.orig.buf[0] else Run(m, before).buf[0];
            var e := Run(m, before + [r] + after).buf[0];
            && Initiator(e) == Destination(h)
            && Destination(e) == if exists i | 0 <= i < |after| :: Broadcasts(after[i]) then 0xf else Initiator(h)
  {
    hide Next, Initiator, Destination, Broadcasts;
    RunConcat(m, before, [r]);
    RunConcat(m, before + [r], after);
    assert (before + [r])[..|before|] == before;
    ReplySwaps(Run(m, before), r);
    BuildsKeepAddresses(Run(m, before + [r]), after);
  }

  /** Answering in place twice restores the header. */
  lemma ReplyTwice(m: Msg)
    ensures Run(m, [ReplyToSelf, ReplyToSelf]).buf == m.buf
  {
    hide ReplyHeader, Initiator, Destination, AddressPair;
    ReplyHeaderTwice(m.buf[0]);
    assert [ReplyToSelf, ReplyToSelf][..1] == [ReplyToSelf];
    assert Run(m, [ReplyToSelf]) == ReplyTo(m, m);
    assert m.buf[0 := ReplyHeader(m.buf[0])][0 := m.buf[0]] == m.buf;
  }

  lemma ReplyHeaderTwice(h: bv8)
    ensures ReplyHeader(ReplyHeader(h)) == h
  {
  }

  /** The feature abort names the opcode it answers and goes back to its sender. */
  lemma AbortAnswers(m: Msg, reason: bv8)
    ensures var a := Next(m, ReplyAbort(reason));
            && a.len == 4 && Read(a.buf, 4) == Some(FeatureAbort(m.buf[1], reason))
            && a.buf[1] == MSG_FEATURE_ABORT && a.buf[2] == m.buf[1] && a.buf[3] == reason
            && Destination(a.buf[0]) == Initiator(m.buf[0]) && Initiator(a.buf[0]) == Destination(m.buf[0])
  {
    hide Apply, Initiator, Destination;
    ReplySwaps(m, ReplyAbort(reason));
    FeatureAbortEffect(ReplyTo(m, m), m.buf[1], reason);
    AbortCanon(m.buf[1], reason);
    ReadAfterApply(ReplyTo(m, m), FeatureAbort(m.buf[1], reason));
  }

  lemma AbortCanon(aborted: bv8, reason: bv8)
    ensures Canon(FeatureAbort(aborted, reason)) == FeatureAbort(aborted, reason)
  {
  }

  // ---------- What a history leaves behind ----------

  /** After any history, a builder transmits what it transmits on a fresh message
      with the same header, unless it is a CDC builder and the framework bytes
      of the history are not zero. */
  lemma HistoryLeavesNoResidue(m: Msg, ss: seq<Step>, op: Op)
    requires ValidSteps(ss) && Valid(op) && Effective(op)
    ensures ValidSteps(ss + [Build(op)])
    ensures var now := Run(m, ss);
            var h := now.buf[0];
            var fresh_ := Apply(Init(Initiator(h), Destination(h)), op);
            && Run(m, ss + [Build(op)]).len == fresh_.len <= 16
            && (Wire(Run(m, ss + [Build(op)])) == Wire(fresh_) <==> (op.Cdc? ==> now.buf[2..4] == [0, 0]))
  {
    hide Apply, Initiator, Destination, AddressPair, Wire;
    var now := Run(m, ss);
    var h := now.buf[0];
    assert (ss + [Build(op)])[..|ss|] == ss;
    HeaderNibbles(h, 0, 0);
    InitFields(Initiator(h), Destination(h));
    NoResidue(now, Init(Initiator(h), Destination(h)), op);
  }

  // ---------- The reply field ----------

  /** Does the step store to the reply field, and what. */
  function ReplyStored(s: Step): Option<bv8>
    requires ValidStep(s)
  {
    match s
    case Build(op) => if ReplyOpcode(Opcode(op)) == 0 then None
                      else Some(if ReplyFlag(op) then ReplyOpcode(Opcode(op)) else 0)
    case Arm(_) => None
    case _ => Some(0)
  }

  lemma NextReply(m: Msg, s: Step)
    requires ValidStep(s)
    ensures Next(m, s).reply == if ReplyStored(s).Some? then ReplyStored(s).value else m.reply
  {
    hide Operands, Opcode, ReplyOpcode, Valid;
    if s.ReplyAbort? { ReplySwaps(m, s); }
  }

  /** The reply field is that of the last step that stores to it: builders
      without a `reply` argument leave an older request standing. */
  lemma {:induction false} ReplyAfterRun(m: Msg, ss: seq<Step>, last: Step, tail: seq<Step>)
    requires ValidSteps(ss) && ValidStep(last) && ReplyStored(last).Some?
    requires ValidSteps(tail) && forall i | 0 <= i < |tail| :: ReplyStored(tail[i]).None?
    ensures ValidSteps(ss + [last] + tail)
    ensures Run(m, ss + [last] + tail).reply == ReplyStored(last).value
  {
    hide Next, ValidStep, ReplyStored;
    if tail == [] {
      assert ss + [last] + tail == ss + [last];
      assert (ss + [last])[..|ss|] == ss;
      NextReply(Run(m, ss), last);
    } else {
      var n := |tail| - 1;
      ReplyAfterRun(m, ss, last, tail[..n]);
      assert (ss + [last] + tail)[..|ss| + 1 + n] == ss + [last] + tail[..n];
      NextReply(Run(m, ss + [last] + tail[..n]), tail[n]);
    }
  }

  /** The step asks for a reply: a builder called with its `reply` argument set. */
  predicate Requests(s: Step) { s.Build? && ReplyFlag(s.op) }

  /** The last step of the history that stores to the reply field asks for a reply. */
  predicate Asks(ss: seq<Step>)
    requires ValidSteps(ss)
  {
    exists i | 0 <= i < |ss| :: Requests(ss[i]) && forall j | i < j < |ss| :: ReplyStored(ss[j]).None?
  }

  predicate NeverStores(ss: seq<Step>)
    requires ValidSteps(ss)
  {
    forall j | 0 <= j < |ss| :: ReplyStored(ss[j]).None?
  }

  lemma RequestIsStored(s: Step)
    requires ValidStep(s)
    ensures Requests(s) <==> ReplyStored(s).Some? && ReplyStored(s).value != 0
  {
    hide Opcode;
    if s.Build? { FlagHasOpcode(s.op); }
  }

  /** Only builders with a reply opcode have a `reply` argument. */
  lemma FlagHasOpcode(op: Op)
    requires Valid(op)
    ensures ReplyFlag(op) ==> ReplyOpcode(Opcode(op)) != 0
  {
  }

  lemma AsksStep(ss: seq<Step>, s: Step)
    requires ValidSteps(ss) && ValidStep(s)
    ensures ValidSteps(ss + [s])
    ensures Asks(ss + [s]) <==> Requests(s) || (ReplyStored(s).None? && Asks(ss))
    ensures NeverStores(ss + [s]) <==> NeverStores(ss) && ReplyStored(s).None?
  {
    hide ValidStep, ReplyStored, Requests;
    var n, tt := |ss|, ss + [s];
    assert tt[n] == s && forall j | 0 <= j < n :: tt[j] == ss[j];
    if Asks(ss) && ReplyStored(s).None? {
      var i :| 0 <= i < n && Requests(ss[i]) && forall j | i < j < n :: ReplyStored(ss[j]).None?;
      assert Requests(tt[i]);
    }
    if Asks(tt) && !Requests(s) {
      var i :| 0 <= i <= n && Requests(tt[i]) && forall j | i < j <= n :: ReplyStored(tt[j]).None?;
      assert i < n && Requests(ss[i]);
      assert forall j | i < j < n :: ReplyStored(ss[j]) == ReplyStored(tt[j]);
    }
  }

  /** A request stands after a history exactly when the last step that stored to
      the field asked, or no step stored to it and one stood before. */
  lemma {:induction false} RequestStands(m: Msg, ss: seq<Step>)
    requires ValidSteps(ss)
    ensures Run(m, ss).reply != 0 <==> Asks(ss) || (NeverStores(ss) && m.reply != 0)
  {
    hide Next, ValidStep, ReplyStored, Requests, Asks, NeverStores;
    if ss == [] {
      AsksNothing();
    } else {
      var n := |ss| - 1;
      RequestStands(m, ss[..n]);
      NextReply(Run(m, ss[..n]), ss[n]);
      RequestIsStored(ss[n]);
      AsksStep(ss[..n], ss[n]);
      assert ss[..n] + [ss[n]] == ss;
    }
  }

  lemma AsksNothing()
    ensures !Asks([]) && NeverStores([])
  {
  }

  // ---------- The documented transmit rule ----------

  /** A broadcast must not ask for a reply. */
  predicate Transmittable(m: Msg) { m.reply == 0 || Destination(m.buf[0]) != 0xf }

  predicate BroadcastsAny(ss: seq<Step>)
    requires ValidSteps(ss)
  {
    exists i | 0 <= i < |ss| :: Broadcasts(ss[i])
  }

  /** Builders alone, on any message: the rule is broken exactly when a request
      stands (the last store to the reply field was one, or none was made and one
      stood before), and the message was addressed to everyone from the start or
      some builder made it a broadcast. */
  lemma TransmittableAfterBuilds(m: Msg, ss: seq<Step>)
    requires ValidSteps(ss) && forall i | 0 <= i < |ss| :: !IsReply(ss[i])
    ensures Transmittable(Run(m, ss)) <==>
            !((Asks(ss) || (NeverStores(ss) && m.reply != 0))
              && (BroadcastsAny(ss) || Destination(m.buf[0]) == 0xf))
  {
    hide Run, Asks, ValidStep, IsReply, Broadcasts, Destination, NeverStores;
    RequestStands(m, ss);
    BuildsKeepAddresses(m, ss);
  }

  /** Any history with a reply step: only what follows the last reply can break
      the rule, and the destination to start from is the initiator that was answered. */
  lemma TransmittableAfterReply(m: Msg, before: seq<Step>, r: Step, after: seq<Step>)
    requires ValidSteps(before) && ValidStep(r) && IsReply(r)
    requires ValidSteps(after) && forall i | 0 <= i < |after| :: !IsReply(after[i])
    ensures ValidSteps(before + [r] + after)
    ensures var h := if r.ReplyToOther? then r.orig.buf[0] else Run(m, before).buf[0];
            Transmittable(Run(m, before + [r] + after)) <==>
            !(Asks(after) && (BroadcastsAny(after) || Initiator(h) == 0xf))
  {
    hide Next, Initiator, Destination, Broadcasts, IsReply, ValidStep, Asks, BroadcastsAny;
    var now := Run(m, before);
    assert (before + [r])[..|before|] == before;
    assert Run(m, before + [r]) == Next(now, r);
    ReplySwaps(now, r);
    RunConcat(m, before, [r]);
    RunConcat(m, before + [r], after);
    TransmittableAfterBuilds(Next(now, r), after);
  }

  /** One call on a fresh message, whatever the two addresses: the rule is broken
      exactly when the call asks for a reply and the message was addressed to
      everyone already or the builder is a broadcast builder.  There are three
      broadcast builders with a `reply` argument. */
  lemma BroadcastWithReply(initiator: bv8, destination: bv8, op: Op)
    requires Valid(op)
    ensures !Transmittable(Apply(Init(initiator, destination), op)) <==>
            ReplyFlag(op) && (destination & 0xf == 0xf || (Effective(op) && IsBroadcast(Opcode(op))))
    ensures ReplyFlag(op) && Effective(op) && IsBroadcast(Opcode(op)) <==>
            && ReplyFlag(op)
            && (Opcode(op) == MSG_REQUEST_ACTIVE_SOURCE || Opcode(op) == MSG_ROUTING_CHANGE
                || Opcode(op) == MSG_REQUEST_CURRENT_LATENCY)
  {
    hide Apply, Opcode, Valid, ReplyOpcode, Asks, Requests, Destination, Init, IsBroadcast, Broadcasts;
    var m := Init(initiator, destination);
    var s := Build(op);
    assert [s][..0] == [];
    assert Run(m, [s]) == Apply(m, op);
    InitFields(initiator, destination);
    InitRest(initiator, destination);
    TransmittableAfterBuilds(m, [s]);
    AsksStep([], s);
    AsksNothing();
    assert [] + [s] == [s];
    RequestIsBuild(op);
    BroadcastIsBuild(op);
    assert BroadcastsAny([s]) <==> Broadcasts(s) by { assert [s][0] == s; }
    FlagHasOpcode(op);
    BroadcastReplies(op);
  }

  lemma RequestIsBuild(op: Op)
    ensures Requests(Build(op)) == ReplyFlag(op)
  {
  }

  lemma BroadcastIsBuild(op: Op)
    requires Valid(op)
    ensures Broadcasts(Build(op)) <==> Effective(op) && IsBroadcast(Opcode(op))
  {
  }

  lemma InitRest(i: bv8, d: bv8)
    ensures Init(i, d).reply == 0
    ensures Destination(Init(i, d).buf[0]) == d & 0xf
  {
  }

  lemma BroadcastReplies(op: Op)
    requires Valid(op)
    ensures var c := Opcode(op);
            Effective(op) && IsBroadcast(c) && ReplyOpcode(c) != 0 <==>
            c == MSG_REQUEST_ACTIVE_SOURCE || c == MSG_ROUTING_CHANGE || c == MSG_REQUEST_CURRENT_LATENCY
  {
  }

  /** A witness: a reply requested by an earlier directed call is still standing
      when a broadcast builder without a `reply` argument uses the same buffer. */
  lemma StaleReplyOnBroadcast(initiator: bv8, destination: bv8, addr: bv16)
    ensures var ss := [Build(Bare(MSG_GET_CEC_VERSION, true)), Build(Address(MSG_ACTIVE_SOURCE, false, addr))];
            ValidSteps(ss) && !Transmittable(Run(Init(initiator, destination), ss))
  {
    hide Apply, AsBroadcast, Destination, Initiator, AddressPair, Hi, Lo;
    var s1, s2 := Build(Bare(MSG_GET_CEC_VERSION, true)), Build(Address(MSG_ACTIVE_SOURCE, false, addr));
    var m := Init(initiator, destination);
    assert [s1, s2][..1] == [s1] && [s1][..0] == [];
    assert Run(m, [s1]) == Apply(m, s1.op);
    BareEffect(m, MSG_GET_CEC_VERSION, true);
    AddressEffect(Apply(m, s1.op), MSG_ACTIVE_SOURCE, false, addr);
    HeaderNibbles(m.buf[0], 0, 0);
  }
}
