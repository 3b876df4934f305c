/** Main results about the wire: what a message says about the call that built it. */
module CecSeparation {
  import opened Options
  import opened CecOps
  import opened CecWire
  import opened CecRead
  import opened CecInjective
  import opened CecCanon

  /** The transmitted bytes `msg[0..len]`. */
  function Wire(m: Msg): seq<bv8>
    requires m.len <= 16
  {
    m.buf[..m.len]
  }

  /** What the wire says about a call; nothing for a call that writes no message. */
  function Meaning(op: Op): Option<Op>
    requires Valid(op)
  {
    if Effective(op) then Some(Canon(op)) else None
  }

  lemma WireOfApply(m: Msg, op: Op)
    requires Valid(op) && Effective(op)
    ensures 2 <= Apply(m, op).len <= 16
    ensures Wire(Apply(m, op)) == [Header(op, m.buf[0])] + Body(op, m.buf[2], m.buf[3])
    ensures Carries(Apply(m, op).buf, Apply(m, op).len, op, m.buf[2], m.buf[3])
  {
    hide Operands, Opcode, Header, Valid;
    BodyFits(op, m.buf[2], m.buf[3]);
    var body := Body(op, m.buf[2], m.buf[3]);
    var b := Apply(m, op).buf;
    assert b == [Header(op, m.buf[0])] + body + Scratch(op) + m.buf[1 + |body| + |Scratch(op)|..];
    assert b[..1 + |body|] == [Header(op, m.buf[0])] + body;
    assert b[1..1 + |body|] == body;
  }

  /** Whatever the message held before, reading it after a call gives back the
      canonical form of that call. */
  lemma ReadAfterApply(m: Msg, op: Op)
    requires Valid(op) && Effective(op)
    ensures Apply(m, op).len <= 16
    ensures Read(Apply(m, op).buf, Apply(m, op).len) == Some(Canon(op))
  {
    hide Apply, Read, Canon, Valid, Carries;
    WireOfApply(m, op);
    ReadMade(Apply(m, op).buf, Apply(m, op).len, op, m.buf[2], m.buf[3]);
  }

  lemma OperandsWithoutStale(op: Op, p: bv8, q: bv8, p': bv8, q': bv8)
    requires Valid(op) && !op.Cdc?
    ensures Operands(op, p, q) == Operands(op, p', q')
  {
  }

  lemma CdcStale(op: Op, p: bv8, q: bv8)
    requires op.Cdc?
    ensures |Body(op, p, q)| >= 3 && Body(op, p, q)[1] == p && Body(op, p, q)[2] == q
  {
  }

  lemma ReadWire(w: seq<bv8>, h: bv8, op: Op, p: bv8, q: bv8)
    requires Valid(op) && Effective(op) && w == [h] + Body(op, p, q)
    ensures Read(w, |w|) == Some(Canon(op))
  {
    hide Read, Canon, Body, Valid, Effective;
    assert w[1..|w|] == Body(op, p, q);
    ReadMade(w, |w|, op, p, q);
  }

  lemma SameCanonSameBody(op1: Op, op2: Op, p: bv8, q: bv8)
    requires Valid(op1) && Valid(op2) && Effective(op1) && Effective(op2) && Canon(op1) == Canon(op2)
    ensures Body(op1, p, q) == Body(op2, p, q)
  {
    hide Canon, Operands, Opcode, Valid, Effective;
    CanonSameBytes(op1, p, q);
    CanonSameBytes(op2, p, q);
  }

  lemma CanonKeepsCdc(op: Op)
    requires Valid(op)
    ensures Canon(op).Cdc? == op.Cdc?
  {
  }

  /** For any two calls on any two messages: the transmitted bytes agree exactly
      when the headers agree, the calls mean the same, and, for a CDC message,
      the framework bytes agree. */
  lemma WireDetermines(m1: Msg, op1: Op, m2: Msg, op2: Op)
    requires Valid(op1) && Valid(op2) && Effective(op1) && Effective(op2)
    ensures Apply(m1, op1).len <= 16 && Apply(m2, op2).len <= 16
    ensures Wire(Apply(m1, op1)) == Wire(Apply(m2, op2)) <==>
            && Header(op1, m1.buf[0]) == Header(op2, m2.buf[0])
            && Canon(op1) == Canon(op2)
            && (op1.Cdc? ==> m1.buf[2..4] == m2.buf[2..4])
  {
    hide Apply, Canon, Operands, Valid, Effective, Header, Body, Carries;
    WireOfApply(m1, op1);
    WireOfApply(m2, op2);
    CanonKeepsCdc(op1);
    CanonKeepsCdc(op2);
    var p1, q1, p2, q2 := m1.buf[2], m1.buf[3], m2.buf[2], m2.buf[3];
    assert m1.buf[2..4] == [p1, q1] && m2.buf[2..4] == [p2, q2];
    var w1, w2 := Wire(Apply(m1, op1)), Wire(Apply(m2, op2));
    assert w1[1..] == Body(op1, p1, q1) && w2[1..] == Body(op2, p2, q2);
    if w1 == w2 {
      ReadWire(w1, Header(op1, m1.buf[0]), op1, p1, q1);
      ReadWire(w2, Header(op2, m2.buf[0]), op2, p2, q2);
      if op1.Cdc? {
        CdcStale(op1, p1, q1);
        CdcStale(op2, p2, q2);
      }
    }
    if Header(op1, m1.buf[0]) == Header(op2, m2.buf[0]) && Canon(op1) == Canon(op2)
       && (op1.Cdc? ==> m1.buf[2..4] == m2.buf[2..4]) {
      SameCanonSameBody(op1, op2, p1, q1);
      BodyWithoutStale(op2, p1, q1, p2, q2);
    }
  }

  lemma BodyWithoutStale(op: Op, p: bv8, q: bv8, p': bv8, q': bv8)
    requires Valid(op) && (op.Cdc? ==> p == p' && q == q')
    ensures Body(op, p, q) == Body(op, p', q')
  {
    hide Operands, Valid;
    if !op.Cdc? { OperandsWithoutStale(op, p, q, p', q'); }
  }

  /** Injectivity of the codec: messages built from `cec_msg_init` by any two
      calls carry equal bytes exactly when their headers agree and the calls
      mean the same. */
  lemma Injective(i1: bv8, d1: bv8, op1: Op, i2: bv8, d2: bv8, op2: Op)
    requires Valid(op1) && Valid(op2)
    ensures Apply(Init(i1, d1), op1).len <= 16 && Apply(Init(i2, d2), op2).len <= 16
    ensures Wire(Apply(Init(i1, d1), op1)) == Wire(Apply(Init(i2, d2), op2)) <==>
            && Header(op1, AddressPair(i1, d1)) == Header(op2, AddressPair(i2, d2))
            && Meaning(op1) == Meaning(op2)
  {
    hide *;
    var m1, m2 := Init(i1, d1), Init(i2, d2);
    InitFields(i1, d1);
    InitFields(i2, d2);
    ApplyLength(m1, op1);
    ApplyLength(m2, op2);
    WireLength(Apply(m1, op1));
    WireLength(Apply(m2, op2));
    if Effective(op1) && Effective(op2) {
      WireDetermines(m1, op1, m2, op2);
    } else if !Effective(op1) && !Effective(op2) {
      WireOfNothing(m1, op1);
      WireOfNothing(m2, op2);
    }
    MeaningCases(op1);
    MeaningCases(op2);
  }

  lemma InitFields(i: bv8, d: bv8)
    ensures Init(i, d).len == 1 && Init(i, d).buf[0] == AddressPair(i, d) && Init(i, d).buf[2..4] == [0, 0]
    ensures Wire(Init(i, d)) == [AddressPair(i, d)]
  {
    assert ZEROED[2] == 0 && ZEROED[3] == 0;
    assert Init(i, d).buf[2] == 0 && Init(i, d).buf[3] == 0;
  }

  lemma ApplyLength(m: Msg, op: Op)
    requires Valid(op) && m.len == 1
    ensures Apply(m, op).len <= 16 && (Apply(m, op).len == 1 <==> !Effective(op))
  {
    hide Operands, Valid;
    BodyFits(op, m.buf[2], m.buf[3]);
  }

  lemma WireLength(m: Msg)
    requires m.len <= 16
    ensures |Wire(m)| == m.len
  {
  }

  lemma MeaningCases(op: Op)
    requires Valid(op)
    ensures Meaning(op) == if Effective(op) then Some(Canon(op)) else None
  {
  }

  /** A call that writes no message leaves the wire as it was. */
  lemma WireOfNothing(m: Msg, op: Op)
    requires Valid(op) && !Effective(op) && m.len <= 16
    ensures Apply(m, op).len == m.len && Wire(Apply(m, op)) == Wire(m)
    ensures Header(op, m.buf[0]) == m.buf[0]
  {
  }

  /** A message carries nothing of the messages built before it in the same
      buffer, except that a CDC message carries bytes 2 and 3 as it found them. */
  lemma NoResidue(m1: Msg, m2: Msg, op: Op)
    requires Valid(op) && Effective(op) && m1.buf[0] == m2.buf[0]
    ensures Apply(m1, op).len == Apply(m2, op).len <= 16
    ensures Wire(Apply(m1, op)) == Wire(Apply(m2, op)) <==> (op.Cdc? ==> m1.buf[2..4] == m2.buf[2..4])
  {
    hide Canon, Valid, Header, Carries;
    WireDetermines(m1, op, m2, op);
    BodyLength(op, m1.buf[2], m1.buf[3], m2.buf[2], m2.buf[3]);
  }

  lemma BodyLength(op: Op, p: bv8, q: bv8, p': bv8, q': bv8)
    requires Valid(op)
    ensures |Body(op, p, q)| == |Body(op, p', q')|
  {
    hide Valid;
    if !op.Cdc? { BodyWithoutStale(op, p, q, p', q'); }
  }

  /** The canonical form is its own canonical form. */
  lemma CanonIdempotent(op: Op)
    requires Valid(op) && Effective(op)
    ensures Valid(Canon(op)) && Canon(Canon(op)) == Canon(op)
  {
    hide Canon, Body, Valid, Effective, Operands, Opcode, Read;
    CanonSameBytes(op, 0, 0);
    CanonBody(op);
    ReadWire([0] + Body(op, 0, 0), 0, op, 0, 0);
    ReadWire([0] + Body(op, 0, 0), 0, Canon(op), 0, 0);
  }

  lemma CanonBody(op: Op)
    requires Valid(op) && Effective(op)
    ensures Valid(Canon(op)) && Effective(Canon(op)) && Body(Canon(op), 0, 0) == Body(op, 0, 0)
  {
    hide Canon, Valid, Operands, Opcode, Effective;
    CanonSameBytes(op, 0, 0);
  }

  lemma CanonFamily(op: Op)
    requires Valid(op)
    ensures FamilyOfOp(Canon(op)) == FamilyOfOp(op)
  {
  }

  /** Equal messages come from the same builder, whatever the operands: the
      opcode is the same and so is the family of the call.  (The arms of tagged
      builders agree too, being part of the canonical form.) */
  lemma SameWireSameBuilder(m1: Msg, op1: Op, m2: Msg, op2: Op)
    requires Valid(op1) && Valid(op2) && Effective(op1) && Effective(op2)
    ensures Apply(m1, op1).len <= 16 && Apply(m2, op2).len <= 16
    ensures Wire(Apply(m1, op1)) == Wire(Apply(m2, op2)) ==>
              Opcode(op1) == Opcode(op2) && FamilyOfOp(op1) == FamilyOfOp(op2)
  {
    hide Apply, Canon, Valid, Effective, Operands, Opcode, FamilyOfOp, Wire;
    WireDetermines(m1, op1, m2, op2);
    CanonFamily(op1);
    CanonFamily(op2);
    CanonSameBytes(op1, 0, 0);
    CanonSameBytes(op2, 0, 0);
  }
}
