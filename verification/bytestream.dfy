/** The byte writer and the bounds-checked byte reader (include/oversub/bytes.hpp), and the audit record
    codec built on them (src/state.cpp). */
module ByteStream {
  import opened Checked
  import opened Endian
  import opened Wire
  import opened Model
  import opened StateCodec

  lemma EncodeSnoc(vs: seq<Value>, v: Value)
    ensures EncodeAll(vs + [v]) == EncodeAll(vs) + Encode(v)
  {
    EncodeConcat(vs, [v]);
    EncodeOne(v);
  }

  class ByteWriter {
    var buf: seq<byte>
    ghost var written: seq<Value>

    ghost predicate Valid() reads this { buf == EncodeAll(written) }

    constructor ()
      ensures Valid() && written == []
    {
      buf, written := [], [];
    }

    /** The byte loop both integer widths share: byte i is the value shifted right by 8 * i. */
    method Bytes(value: nat, width: nat)
      modifies this`buf
      ensures buf == old(buf) + Little(value, width)
    {
      for i := 0 to width
        modifies this`buf
        invariant buf == old(buf) + Little(value, i)
      {
        LittleDigit(value, i);
        buf := buf + [value / Pow256(i) % 256];
      }
    }

    method U32(value: u32)
      requires Valid()
      modifies this
      ensures Valid() && written == old(written) + [Word32V(value)]
    {
      EncodeSnoc(written, Word32V(value));
      Bytes(value, 4);
      written := written + [Word32V(value)];
    }

    method U64(value: u64)
      requires Valid()
      modifies this
      ensures Valid() && written == old(written) + [Word64V(value)]
    {
      EncodeSnoc(written, Word64V(value));
      Bytes(value, 8);
      written := written + [Word64V(value)];
    }

    method Boolean(value: bool)
      requires Valid()
      modifies this
      ensures Valid() && written == old(written) + [BoolV(value)]
    {
      EncodeSnoc(written, BoolV(value));
      buf := buf + [if value then 1 else 0];
      written := written + [BoolV(value)];
    }

    method Digest(value: Digest)
      requires Valid()
      modifies this
      ensures Valid() && written == old(written) + [HashV(value)]
    {
      EncodeSnoc(written, HashV(value));
      buf := buf + value;
      written := written + [HashV(value)];
    }

    /** A string longer than its bound is not written at all. */
    method String(value: seq<byte>, maxLength: u32) returns (ok: bool)
      requires Valid()
      modifies this
      ensures Valid() && ok == (|value| <= maxLength)
      ensures written == old(written) + if ok then [TextV(value)] else []
    {
      if |value| > maxLength {
        return false;
      }
      EncodeSnoc(written, TextV(value));
      Bytes(|value|, 4);
      buf := buf + value;
      written := written + [TextV(value)];
      return true;
    }
  }

  // -------------------------------------------------------------- reading

  lemma {:induction false} FromLittleSnoc(s: seq<byte>, b: byte)
    ensures FromLittle(s + [b]) == FromLittle(s) + b * Pow256(|s|)
  {
    if s == [] {
      assert [b][1..] == [];
    } else {
      var t := s + [b];
      assert t[1..] == s[1..] + [b] && t[0] == s[0];
      FromLittleSnoc(s[1..], b);
      var tail, p: nat, c: int := FromLittle(s[1..]), Pow256(|s| - 1), b;
      assert Pow256(|s|) == 256 * p;
      Scaled(c, p);
    }
  }

  lemma Scaled(c: int, p: int)
    ensures 256 * (c * p) == c * (256 * p)
  {
  }

  lemma SliceAt(s: seq<byte>, at: nat, n: nat)
    requires at + n <= |s|
    ensures s[at..][..n] == s[at..at + n] && s[at..][n..] == s[at + n..] && |s[at..]| == |s| - at
  {
  }

  /** A string is its length, checked, and that many bytes. */
  lemma TextParts(s: seq<byte>, max: u32)
    ensures Decode(Text(max), s)
            == match TakeWord(s, 4)
               case Malformed => Malformed
               case Read(n, rest) =>
                 if n > max || n > |rest| then Malformed else Read(TextV(rest[..n]), rest[n..])
  {
  }

  class ByteReader {
    const data: seq<byte>
    var offset: nat
    ghost var shapes: seq<Shape>      // what has been asked for so far
    ghost var values: seq<Value>      // and what it was
    ghost var broken: bool

    ghost predicate Valid()
      reads this
    {
      && offset <= |data|
      && if broken then DecodeAll(shapes, data).Malformed? else DecodeAll(shapes, data) == Read(values, data[offset..])
    }

    constructor (data: seq<byte>)
      ensures Valid() && this.data == data && shapes == [] && values == [] && !broken
    {
      this.data := data;
      offset, shapes, values, broken := 0, [], [], false;
    }

    /** What every read of one field promises. */
    twostate predicate Took(shape: Shape, ok: bool, v: Value)
      reads this
    {
      && shapes == old(shapes) + [shape] && broken == !ok
      && (ok ==> values == old(values) + [v])
    }

    method Word(width: nat) returns (ok: bool, value: nat)
      requires offset <= |data|
      modifies this`offset
      ensures offset <= |data|
      ensures match TakeWord(data[old(offset)..], width)
              case Malformed => !ok
              case Read(w, rest) => ok && value == w && rest == data[offset..]
    {
      value := 0;
      if offset + width > |data| {
        return false, 0;
      }
      for i := 0 to width
        modifies {}
        invariant value == FromLittle(data[offset..offset + i])
      {
        assert data[offset..offset + i] + [data[offset + i]] == data[offset..offset + i + 1];
        FromLittleSnoc(data[offset..offset + i], data[offset + i]);
        value := value + data[offset + i] * Pow256(i);
      }
      assert data[offset..][..width] == data[offset..offset + width];
      assert data[offset..][width..] == data[offset + width..];
      offset := offset + width;
      ok := true;
    }

    method U32() returns (ok: bool, value: u32)
      requires Valid() && !broken
      modifies this
      ensures Valid() && Took(Word32, ok, Word32V(value))
    {
      Widths();
      DecodeSnoc(shapes, Word32, data);
      var w;
      ok, w := Word(4);
      value := if ok then w else 0;
      shapes, broken, values := shapes + [Word32], !ok, values + [Word32V(value)];
    }

    method U64() returns (ok: bool, value: u64)
      requires Valid() && !broken
      modifies this
      ensures Valid() && Took(Word64, ok, Word64V(value))
    {
      Widths();
      DecodeSnoc(shapes, Word64, data);
      var w;
      ok, w := Word(8);
      value := if ok then w else 0;
      shapes, broken, values := shapes + [Word64], !ok, values + [Word64V(value)];
    }

    method Boolean() returns (ok: bool, value: bool)
      requires Valid() && !broken
      modifies this
      ensures Valid() && Took(Bool, ok, BoolV(value))
    {
      DecodeSnoc(shapes, Bool, data);
      ok, value := offset + 1 <= |data|, false;
      if ok {
        value := data[offset] != 0;
        assert data[offset..][..1] == [data[offset]] && data[offset..][1..] == data[offset + 1..];
        offset := offset + 1;
      }
      shapes, broken, values := shapes + [Bool], !ok, values + [BoolV(value)];
    }

    method Digest() returns (ok: bool, value: Digest)
      requires Valid() && !broken
      modifies this
      ensures Valid() && Took(Hash, ok, HashV(value))
    {
      DecodeSnoc(shapes, Hash, data);
      ok, value := offset + 32 <= |data|, ZeroDigest();
      if ok {
        value := data[offset..offset + 32];
        assert data[offset..][..32] == value && data[offset..][32..] == data[offset + 32..];
        offset := offset + 32;
      }
      shapes, broken, values := shapes + [Hash], !ok, values + [HashV(value)];
    }

    method String(maxLength: u32) returns (ok: bool, value: seq<byte>)
      requires Valid() && !broken
      modifies this
      ensures Valid() && Took(Text(maxLength), ok, TextV(value))
    {
      Widths();
      DecodeSnoc(shapes, Text(maxLength), data);
      TextParts(data[offset..], maxLength);
      hide Decode, DecodeAll, TakeBlob, TakeWord, Pow256, Little;
      value := [];
      var length;
      ok, length := Word(4);
      if !ok || length > maxLength || offset + length > |data| {
        ok := false;
      } else {
        SliceAt(data, offset, length);
        value := data[offset..offset + length];
        offset := offset + length;
      }
      shapes, broken, values := shapes + [Text(maxLength)], !ok, values + [TextV(value)];
    }
  }

  // --------------------------------------------------------- audit records

  method WriteOrigin(w: ByteWriter, r: AuditRecord)
    requires w.Valid()
    modifies w
    ensures w.Valid() && w.written == old(w.written) + AuditOrigin(r)
  {
    w.U64(r.id);
    w.U64(r.tick);
    w.U64(r.wallMillis);
    w.U64(r.incarnation);
    w.U64(r.epoch);
    w.U64(r.domain);
    w.U64(r.domainGeneration);
    w.U64(r.policyGeneration);
  }

  method WriteVerdict(w: ByteWriter, r: AuditRecord)
    requires w.Valid()
    modifies w
    ensures w.Valid() && w.written == old(w.written) + AuditVerdict(r)
  {
    w.U32(OutcomeCode(r.raw));
    w.U32(OutcomeCode(r.effective));
    w.U32(r.reason.code);
    w.U32(r.constraint.code);
    w.U64(r.decision);
    w.Digest(r.decisionDigest);
    w.Digest(r.inputDigest);
    w.Boolean(r.authorized);
  }

  method WriteTotals(w: ByteWriter, r: AuditRecord) returns (ok: bool)
    requires w.Valid()
    modifies w
    ensures w.Valid() && ok == (|r.summary| <= MAX_AUDIT_SUMMARY)
    ensures ok ==> w.written == old(w.written) + AuditTotals(r)
  {
    w.U64(r.authorizedIncrement);
    w.Boolean(r.fenced);
    w.U32(r.confirmations);
    w.U64(r.lastEscalationTick);
    w.U64(r.ceilingTotal);
    w.U64(r.committedTotal);
    w.U64(r.overage);
    ok := w.String(r.summary, MAX_AUDIT_SUMMARY);
  }

  /** serialize_audit_record. */
  method SerializeAuditRecord(r: AuditRecord) returns (out: Option<seq<byte>>)
    ensures out == EncodeAudit(r)
  {
    hide AuditOrigin, AuditVerdict, AuditTotals, EncodeAll;
    var w := new ByteWriter();
    WriteOrigin(w, r);
    WriteVerdict(w, r);
    var ok := WriteTotals(w, r);
    assert ok ==> w.written == AuditFields(r);
    out := if ok then Some(w.buf) else None;
  }

  method ReadOrigin(r: ByteReader)
    returns (ok: bool, id: u64, tick: u64, wallMillis: u64, incarnation: u64)
    requires r.Valid() && !r.broken
    modifies r
    ensures r.Valid() && r.broken == !ok
    ensures ok ==> r.shapes == old(r.shapes) + AUDIT_ORIGIN[..4] && r.values == old(r.values) + [
      Word64V(id), Word64V(tick), Word64V(wallMillis), Word64V(incarnation)]
    ensures !ok ==> r.shapes <= old(r.shapes) + AUDIT_ORIGIN[..4]
  {
    hide ByteReader.Valid;
    id, tick, wallMillis, incarnation := 0, 0, 0, 0;
    ok, id := r.U64();
    if !ok { return; }
    ok, tick := r.U64();
    if !ok { return; }
    ok, wallMillis := r.U64();
    if !ok { return; }
    ok, incarnation := r.U64();
    if !ok { return; }
  }

  method ReadBinding(r: ByteReader)
    returns (ok: bool, epoch: u64, domain: u64, domainGeneration: u64, policyGeneration: u64)
    requires r.Valid() && !r.broken
    modifies r
    ensures r.Valid() && r.broken == !ok
    ensures ok ==> r.shapes == old(r.shapes) + AUDIT_ORIGIN[4..] && r.values == old(r.values) + [
      Word64V(epoch), Word64V(domain), Word64V(domainGeneration), Word64V(policyGeneration)]
    ensures !ok ==> r.shapes <= old(r.shapes) + AUDIT_ORIGIN[4..]
  {
    hide ByteReader.Valid;
    epoch, domain, domainGeneration, policyGeneration := 0, 0, 0, 0;
    ok, epoch := r.U64();
    if !ok { return; }
    ok, domain := r.U64();
    if !ok { return; }
    ok, domainGeneration := r.U64();
    if !ok { return; }
    ok, policyGeneration := r.U64();
    if !ok { return; }
  }

  method ReadVerdict(r: ByteReader)
    returns (ok: bool, raw: u32, effective: u32, reason: u32, constraint: u32)
    requires r.Valid() && !r.broken
    modifies r
    ensures r.Valid() && r.broken == !ok
    ensures ok ==> r.shapes == old(r.shapes) + AUDIT_VERDICT[..4] && r.values == old(r.values) + [
      Word32V(raw), Word32V(effective), Word32V(reason), Word32V(constraint)]
    ensures !ok ==> r.shapes <= old(r.shapes) + AUDIT_VERDICT[..4]
  {
    hide ByteReader.Valid;
    raw, effective, reason, constraint := 0, 0, 0, 0;
    ok, raw := r.U32();
    if !ok { return; }
    ok, effective := r.U32();
    if !ok { return; }
    ok, reason := r.U32();
    if !ok { return; }
    ok, constraint := r.U32();
    if !ok { return; }
  }

  method ReadDigests(r: ByteReader)
    returns (ok: bool, decision: u64, decisionDigest: Digest, inputDigest: Digest, authorized: bool)
    requires r.Valid() && !r.broken
    modifies r
    ensures r.Valid() && r.broken == !ok
    ensures ok ==> r.shapes == old(r.shapes) + AUDIT_VERDICT[4..] && r.values == old(r.values) + [
      Word64V(decision), HashV(decisionDigest), HashV(inputDigest), BoolV(authorized)]
    ensures !ok ==> r.shapes <= old(r.shapes) + AUDIT_VERDICT[4..]
  {
    hide ByteReader.Valid;
    decision, decisionDigest, inputDigest, authorized := 0, ZeroDigest(), ZeroDigest(), false;
    ok, decision := r.U64();
    if !ok { return; }
    ok, decisionDigest := r.Digest();
    if !ok { return; }
    ok, inputDigest := r.Digest();
    if !ok { return; }
    ok, authorized := r.Boolean();
    if !ok { return; }
  }

  method ReadGrant(r: ByteReader)
    returns (ok: bool, authorizedIncrement: u64, fenced: bool, confirmations: u32, lastEscalationTick: u64)
    requires r.Valid() && !r.broken
    modifies r
    ensures r.Valid() && r.broken == !ok
    ensures ok ==> r.shapes == old(r.shapes) + AUDIT_TOTALS[..4] && r.values == old(r.values) + [
      Word64V(authorizedIncrement), BoolV(fenced), Word32V(confirmations), Word64V(lastEscalationTick)]
    ensures !ok ==> r.shapes <= old(r.shapes) + AUDIT_TOTALS[..4]
  {
    hide ByteReader.Valid;
    authorizedIncrement, fenced, confirmations, lastEscalationTick := 0, false, 0, 0;
    ok, authorizedIncrement := r.U64();
    if !ok { return; }
    ok, fenced := r.Boolean();
    if !ok { return; }
    ok, confirmations := r.U32();
    if !ok { return; }
    ok, lastEscalationTick := r.U64();
    if !ok { return; }
  }

  method ReadAmounts(r: ByteReader)
    returns (ok: bool, ceilingTotal: u64, committedTotal: u64, overage: u64, summary: seq<byte>)
    requires r.Valid() && !r.broken
    modifies r
    ensures r.Valid() && r.broken == !ok
    ensures ok ==> r.shapes == old(r.shapes) + AUDIT_TOTALS[4..] && r.values == old(r.values) + [
      Word64V(ceilingTotal), Word64V(committedTotal), Word64V(overage), TextV(summary)]
    ensures !ok ==> r.shapes <= old(r.shapes) + AUDIT_TOTALS[4..]
  {
    hide ByteReader.Valid;
    ceilingTotal, committedTotal, overage, summary := 0, 0, 0, [];
    ok, ceilingTotal := r.U64();
    if !ok { return; }
    ok, committedTotal := r.U64();
    if !ok { return; }
    ok, overage := r.U64();
    if !ok { return; }
    ok, summary := r.String(MAX_AUDIT_SUMMARY);
    if !ok { return; }
  }

  lemma FieldsGiveRecord(id: u64, tick: u64, wallMillis: u64, incarnation: u64, epoch: u64, domain: u64,
      domainGeneration: u64, policyGeneration: u64, raw: u32, effective: u32, reason: u32, constraint: u32,
      decision: u64, decisionDigest: Digest, inputDigest: Digest, authorized: bool, authorizedIncrement: u64,
      fenced: bool, confirmations: u32, lastEscalationTick: u64, ceilingTotal: u64, committedTotal: u64,
      overage: u64, summary: seq<byte>)
    ensures AuditOf(
      [Word64V(id), Word64V(tick), Word64V(wallMillis), Word64V(incarnation)]
      + [Word64V(epoch), Word64V(domain), Word64V(domainGeneration), Word64V(policyGeneration)]
      + [Word32V(raw), Word32V(effective), Word32V(reason), Word32V(constraint)]
      + [Word64V(decision), HashV(decisionDigest), HashV(inputDigest), BoolV(authorized)]
      + [Word64V(authorizedIncrement), BoolV(fenced), Word32V(confirmations), Word64V(lastEscalationTick)]
      + [Word64V(ceilingTotal), Word64V(committedTotal), Word64V(overage), TextV(summary)])
      == AuditRecord(id, tick, wallMillis, incarnation, epoch, domain, domainGeneration,
      policyGeneration, OutcomeOf(raw), OutcomeOf(effective), Reason(reason), Constraint(constraint), decision,
      decisionDigest, inputDigest, authorized, authorizedIncrement, fenced, confirmations, lastEscalationTick,
      ceilingTotal, committedTotal, overage, summary)
  {
  }

  lemma BrokenReader(r: ByteReader, shapes: seq<Shape>)
    requires r.Valid() && r.broken && r.shapes <= shapes
    ensures DecodeAll(shapes, r.data).Malformed?
  {
    MalformedPrefix(r.shapes, shapes[|r.shapes|..], r.data);
    assert r.shapes + shapes[|r.shapes|..] == shapes;
  }

  /** The record is read in six steps of four fields. */
  lemma AuditSections()
    ensures var a, b := AUDIT_ORIGIN[..4], AUDIT_ORIGIN[..4] + AUDIT_ORIGIN[4..];
            var c, d := b + AUDIT_VERDICT[..4], b + AUDIT_VERDICT[..4] + AUDIT_VERDICT[4..];
            var e, f := d + AUDIT_TOTALS[..4], d + AUDIT_TOTALS[..4] + AUDIT_TOTALS[4..];
            && f == AUDIT && a <= AUDIT && b <= AUDIT && c <= AUDIT && d <= AUDIT && e <= AUDIT
  {
  }

  /** The fields of a record, in order; a failed read stops at once. */
  method ReadAuditRecord(r: ByteReader) returns (record: Option<AuditRecord>)
    requires r.Valid() && !r.broken && r.shapes == [] && r.values == []
    modifies r
    ensures r.Valid() && r.broken == record.None?
    ensures record.Some? ==> r.shapes == AUDIT && record.value == AuditOf(r.values)
    ensures record.None? ==> r.shapes <= AUDIT
  {
    hide ByteReader.Valid, OutcomeOf, AuditOf;
    AuditSections();
    var ok, id, tick, wallMillis, incarnation := ReadOrigin(r);
    if !ok { return None; }
    assert r.values == [Word64V(id), Word64V(tick), Word64V(wallMillis), Word64V(incarnation)];
    assert r.shapes == AUDIT_ORIGIN[..4];
    var epoch, domain, domainGeneration, policyGeneration;
    ok, epoch, domain, domainGeneration, policyGeneration := ReadBinding(r);
    if !ok { return None; }
    var raw, effective, reason, constraint;
    ok, raw, effective, reason, constraint := ReadVerdict(r);
    if !ok { return None; }
    var decision, decisionDigest, inputDigest, authorized;
    ok, decision, decisionDigest, inputDigest, authorized := ReadDigests(r);
    if !ok { return None; }
    var authorizedIncrement, fenced, confirmations, lastEscalationTick;
    ok, authorizedIncrement, fenced, confirmations, lastEscalationTick := ReadGrant(r);
    if !ok { return None; }
    var ceilingTotal, committedTotal, overage, summary;
    ok, ceilingTotal, committedTotal, overage, summary := ReadAmounts(r);
    if !ok { return None; }
    FieldsGiveRecord(id, tick, wallMillis, incarnation, epoch, domain, domainGeneration, policyGeneration, raw,
      effective, reason, constraint, decision, decisionDigest, inputDigest, authorized, authorizedIncrement,
      fenced, confirmations, lastEscalationTick, ceilingTotal, committedTotal, overage, summary);
    record := Some(AuditRecord(id, tick, wallMillis, incarnation, epoch, domain, domainGeneration,
      policyGeneration, OutcomeOf(raw), OutcomeOf(effective), Reason(reason), Constraint(constraint), decision,
      decisionDigest, inputDigest, authorized, authorizedIncrement, fenced, confirmations, lastEscalationTick,
      ceilingTotal, committedTotal, overage, summary));
  }

  /** deserialize_audit_record: the fields, and then the end of the buffer. */
  method DeserializeAuditRecord(buffer: seq<byte>) returns (out: Option<AuditRecord>)
    ensures out == DecodeAudit(buffer)
  {
    hide DecodeAll, AuditOf;
    var r := new ByteReader(buffer);
    out := ReadAuditRecord(r);
    if out.None? {
      BrokenReader(r, AUDIT);
      return None;
    }
    assert r.data[r.offset..] == [] <==> r.offset == |r.data|;
    if r.offset != |r.data| {
      return None;
    }
  }
}
