/** Journal frames and what a reader recovers from a journal file (src/persistence.cpp). The hash is any
    function to 32 bytes. */
module Journal {
  import opened Checked
  import opened Endian
  import opened Wire
  import opened Model
  import opened StateCodec
  import opened Flattening

  const MAGIC: seq<byte> := [79, 83, 74, 49]      // "OSJ1"
  const FORMAT_VERSION: u32 := 1
  const HEADER_BYTES: nat := 20
  const DIGEST_BYTES: nat := 32

  datatype Bounds = Bounds(maxStateBytes: u64, maxJournalBytes: u64, maxJournalRecords: u64)

  // --------------------------------------------------------------- writing

  function Header(length: nat): (h: seq<byte>)
    ensures |h| == HEADER_BYTES
  {
    MAGIC + Little(FORMAT_VERSION, 4) + Little(0, 4) + Little(length, 8)
  }

  function Frame(hash: HashFunction, payload: seq<byte>): (f: seq<byte>)
    ensures |f| == HEADER_BYTES + |payload| + DIGEST_BYTES
  {
    Header(|payload|) + payload + hash(payload)
  }

  function Payload(r: AuditRecord): seq<byte> { EncodeAll(AuditFields(r)) }

  function RecordFrame(hash: HashFunction, r: AuditRecord): seq<byte> { Frame(hash, Payload(r)) }

  function Writer(hash: HashFunction): AuditRecord -> seq<byte> { (r: AuditRecord) => RecordFrame(hash, r) }

  function Frames(hash: HashFunction, rs: seq<AuditRecord>): seq<byte> { Flat(Writer(hash), rs) }

  // --------------------------------------------------------------- reading

  datatype Found = Found(record: AuditRecord, size: nat)

  /** The frame at the front of `s`, or None when it is cut short or damaged. The reserved word is not
      looked at. */
  function ReadFrame(hash: HashFunction, l: Bounds, s: seq<byte>): (f: Option<Found>)
    ensures f.Some? ==> HEADER_BYTES + DIGEST_BYTES <= f.value.size <= |s| && BoundedAudit(f.value.record)
  {
    if |s| < HEADER_BYTES + DIGEST_BYTES || s[..4] != MAGIC then None
    else
      var version, length := FromLittle(s[4..8]), FromLittle(s[12..20]);
      if version != FORMAT_VERSION || length > l.maxStateBytes || |s| - HEADER_BYTES < length + DIGEST_BYTES then None
      else
        var payload := s[HEADER_BYTES..HEADER_BYTES + length];
        if s[HEADER_BYTES + length..HEADER_BYTES + length + DIGEST_BYTES] != hash(payload) then None
        else
          match DecodeAudit(payload)
          case None => None
          case Some(r) => AuditAccepted(payload); Some(Found(r, HEADER_BYTES + length + DIGEST_BYTES))
  }

  datatype Scanned = Scanned(records: seq<AuditRecord>, end: nat, damaged: bool)

  /** Frame after frame until the end, the first damaged one, or one record too many. `end` is where
      the usable part stops. */
  function Scan(hash: HashFunction, l: Bounds, bytes: seq<byte>, offset: nat, seen: seq<AuditRecord>): Scanned
    requires offset <= |bytes|
    decreases |bytes| - offset
  {
    if offset == |bytes| then Scanned(seen, offset, false)
    else
      match ReadFrame(hash, l, bytes[offset..])
      case None => Scanned(seen, offset, true)
      case Some(f) =>
        if |seen| + 1 > l.maxJournalRecords then Scanned(seen + [f.record], offset, true)
        else Scan(hash, l, bytes, offset + f.size, seen + [f.record])
  }

  /** What a recovery leaves in the file. */
  function Recovered(hash: HashFunction, bytes: seq<byte>, s: Scanned): seq<byte> {
    if s.damaged then Frames(hash, s.records) else bytes
  }

  // ------------------------------------------------------- one frame at a time

  lemma HeaderParts(length: nat, rest: seq<byte>)
    requires length < U64_LIMIT
    ensures var s := Header(length) + rest;
            && s[..4] == MAGIC && FromLittle(s[4..8]) == FORMAT_VERSION && FromLittle(s[12..20]) == length
  {
    Widths();
    var s := Header(length) + rest;
    assert s[4..8] == Little(FORMAT_VERSION, 4) && s[12..20] == Little(length, 8);
    LittleRoundTrip(FORMAT_VERSION, 4);
    LittleRoundTrip(length, 8);
  }

  /** A frame that was written is read back, whatever follows it, unless its payload is larger than the
      state may be: a bound that is checked on reading only. */
  lemma FrameReadsBack(hash: HashFunction, l: Bounds, r: AuditRecord, post: seq<byte>)
    requires BoundedAudit(r)
    ensures ReadFrame(hash, l, RecordFrame(hash, r) + post)
            == if |Payload(r)| <= l.maxStateBytes then Some(Found(r, |RecordFrame(hash, r)|)) else None
  {
    var payload, s := Payload(r), RecordFrame(hash, r) + post;
    assert s == Header(|payload|) + (payload + hash(payload) + post);
    AuditLength(r);
    HeaderParts(|payload|, payload + hash(payload) + post);
    assert s[HEADER_BYTES..HEADER_BYTES + |payload|] == payload;
    assert s[HEADER_BYTES + |payload|..HEADER_BYTES + |payload| + DIGEST_BYTES] == hash(payload);
    AuditRoundTrip(r);
    hide DecodeAudit, AuditFields, Header, EncodeAll;
  }

  /** A record with as long a summary as there may be. */
  function LongRecord(): AuditRecord {
    AuditRecord(1, 0, 0, 1, 1, 1, 1, 1, WithinPolicy, WithinPolicy, NO_REASON, NO_CONSTRAINT, 1, ZeroDigest(), ZeroDigest(),
                false, 0, false, 0, 0, 0, 0, 0, seq(MAX_AUDIT_SUMMARY, i => 0))
  }

  /** Under a max_state_bytes of 400 its frame is written and never read back. */
  lemma LongRecordIsLost(hash: HashFunction, maxJournalBytes: u64, maxJournalRecords: u64, post: seq<byte>)
    ensures BoundedAudit(LongRecord())
    ensures ReadFrame(hash, Bounds(400, maxJournalBytes, maxJournalRecords), RecordFrame(hash, LongRecord()) + post) == None
  {
    assert BoundedAudit(LongRecord());
    AuditLength(LongRecord());
    hide ReadFrame, RecordFrame, LongRecord;
    FrameReadsBack(hash, Bounds(400, maxJournalBytes, maxJournalRecords), LongRecord(), post);
  }

  /** A frame cut anywhere inside is not a frame. */
  lemma CutFrameIsDamaged(hash: HashFunction, l: Bounds, r: AuditRecord, n: nat)
    requires |Payload(r)| < U64_LIMIT && 0 < n < |RecordFrame(hash, r)|
    ensures ReadFrame(hash, l, RecordFrame(hash, r)[..n]) == None
  {
    var payload, s := Payload(r), RecordFrame(hash, r)[..n];
    if n >= HEADER_BYTES + DIGEST_BYTES {
      var rest := (payload + hash(payload))[..n - HEADER_BYTES];
      assert s == Header(|payload|) + rest;
      HeaderParts(|payload|, rest);
      hide Header;
    }
  }

  // ------------------------------------------------------------ whole journals

  predicate Storable(l: Bounds, r: AuditRecord) { BoundedAudit(r) && |Payload(r)| <= l.maxStateBytes }

  predicate Writable(l: Bounds, rs: seq<AuditRecord>) {
    |rs| <= l.maxJournalRecords && forall i :: 0 <= i < |rs| ==> Storable(l, rs[i])
  }

  /** One more whole record. */
  lemma ScanStep(hash: HashFunction, l: Bounds, rs: seq<AuditRecord>, cut: nat, n: nat)
    requires Writable(l, rs) && cut <= |Frames(hash, rs)| && n < Whole(Writer(hash), rs, cut)
    ensures var at, next := |Frames(hash, rs[..n])|, |Frames(hash, rs[..n + 1])|;
            && at <= next <= cut
            && Scan(hash, l, Frames(hash, rs)[..cut], at, rs[..n]) == Scan(hash, l, Frames(hash, rs)[..cut], next, rs[..n + 1])
  {
    hide RecordFrame, ReadFrame, BoundedAudit, Flat, Whole;
    var bytes, next := Frames(hash, rs)[..cut], |Frames(hash, rs[..n + 1])|;
    WholeFits(Writer(hash), rs, cut);
    ItemInside(Writer(hash), rs, cut, n, Whole(Writer(hash), rs, cut));
    assert Storable(l, rs[n]);
    FrameReadsBack(hash, l, rs[n], bytes[next..]);
    assert rs[..n + 1] == rs[..n] + [rs[n]];
  }

  /** Scanning from a record boundary up to the cut. */
  lemma {:induction false} ScanCut(hash: HashFunction, l: Bounds, rs: seq<AuditRecord>, cut: nat, n: nat)
    requires Writable(l, rs) && cut <= |Frames(hash, rs)| && n <= Whole(Writer(hash), rs, cut)
    requires |Frames(hash, rs[..n])| <= cut
    ensures var w := Whole(Writer(hash), rs, cut);
            var end := |Frames(hash, rs[..w])|;
            Scan(hash, l, Frames(hash, rs)[..cut], |Frames(hash, rs[..n])|, rs[..n])
            == Scanned(rs[..w], end, end < cut)
    decreases |rs| - n
  {
    hide RecordFrame, ReadFrame, Storable, Flat, Whole;
    var f := Writer(hash);
    WholeFits(f, rs, cut);
    NothingCut(f, rs, cut);
    assert rs[..|rs|] == rs;
    if n < Whole(f, rs, cut) {
      ScanStep(hash, l, rs, cut, n);
      ScanCut(hash, l, rs, cut, n + 1);
    } else if |Frames(hash, rs[..n])| < cut {
      CutInside(f, rs, cut, n);
      StorableLength(l, rs[n]);
      CutFrameIsDamaged(hash, l, rs[n], cut - |Frames(hash, rs[..n])|);
    }
  }

  lemma StorableLength(l: Bounds, r: AuditRecord)
    requires Storable(l, r)
    ensures |Payload(r)| < U64_LIMIT
  {
  }

  /** A journal cut at any byte yields exactly the records that end at or before the cut; it counts as
      damaged unless the cut is a record boundary; and what recovery leaves in the file reads back as
      those records with no damage. */
  lemma CutAtAnyByte(hash: HashFunction, l: Bounds, rs: seq<AuditRecord>, cut: nat)
    requires Writable(l, rs) && cut <= |Frames(hash, rs)|
    ensures var bytes, n := Frames(hash, rs)[..cut], Whole(Writer(hash), rs, cut);
            var s := Scan(hash, l, bytes, 0, []);
            && s.records == rs[..n]
            && (s.damaged <==> cut != |Frames(hash, rs[..n])|)
            && |Frames(hash, rs[..n])| <= cut && (n < |rs| ==> cut < |Frames(hash, rs[..n + 1])|)
            && Recovered(hash, bytes, s) == Frames(hash, rs[..n])
            && Scan(hash, l, Frames(hash, rs[..n]), 0, []) == Scanned(rs[..n], |Frames(hash, rs[..n])|, false)
  {
    hide Scan, Flat, Whole, Storable, RecordFrame;
    var f := Writer(hash);
    var n := Whole(f, rs, cut);
    WholeFits(f, rs, cut);
    ScanFromStart(hash, l, rs, cut);
    ScanWhole(hash, l, rs[..n]);
    if cut == |Flat(f, rs[..n])| {
      WholePrefix(hash, rs, n);
      assert Flat(f, rs)[..cut] == Flat(f, rs[..n]);
    }
  }

  lemma WholePrefix(hash: HashFunction, rs: seq<AuditRecord>, n: nat)
    requires n <= |rs|
    ensures Frames(hash, rs[..n]) <= Frames(hash, rs)
  {
    assert rs[..|rs|] == rs;
    FlatPrefix(Writer(hash), rs, n, |rs|);
  }

  lemma ScanFromStart(hash: HashFunction, l: Bounds, rs: seq<AuditRecord>, cut: nat)
    requires Writable(l, rs) && cut <= |Frames(hash, rs)|
    ensures var w := Whole(Writer(hash), rs, cut);
            var end := |Frames(hash, rs[..w])|;
            Scan(hash, l, Frames(hash, rs)[..cut], 0, []) == Scanned(rs[..w], end, end < cut)
  {
    assert rs[..0] == [] && Flat(Writer(hash), []) == [];
    hide Scan, Flat, Whole, Storable;
    ScanCut(hash, l, rs, cut, 0);
  }

  /** A journal of whole frames reads back as what was written. */
  lemma ScanWhole(hash: HashFunction, l: Bounds, rs: seq<AuditRecord>)
    requires Writable(l, rs)
    ensures Scan(hash, l, Frames(hash, rs), 0, []) == Scanned(rs, |Frames(hash, rs)|, false)
  {
    var all := Frames(hash, rs);
    assert Whole(Writer(hash), rs, |all|) == |rs|;
    assert rs[..|rs|] == rs && all[..|all|] == all;
    hide Scan, Flat, Whole;
    ScanFromStart(hash, l, rs, |all|);
  }
}
