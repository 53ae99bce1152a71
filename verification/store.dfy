/** The journal half of the store over one file of bytes (Store in src/persistence.cpp).

    A rewrite either replaces the file or leaves it; an append either adds the whole frame or nothing.
    A crash may leave any prefix of the file. */
module JournalStore {
  import opened Checked
  import opened Endian
  import opened Wire
  import opened Model
  import opened StateCodec
  import opened ByteStream
  import opened Flattening
  import opened Journal
  import G = Governing

  const READ_SLACK: nat := 0x10_0000

  // ------------------------------------------------------------ frame sizes

  /** The sizes the governor's journal bound is stated in are the sizes of the frames. */
  lemma FrameSizes(hash: HashFunction, r: AuditRecord)
    ensures |RecordFrame(hash, r)| == G.FrameSize(r)
  {
    AuditLength(r);
    hide AuditFields, EncodeAll;
  }

  lemma {:induction false} JournalSizes(hash: HashFunction, rs: seq<AuditRecord>)
    ensures |Frames(hash, rs)| == G.JournalSize(rs)
  {
    if rs != [] {
      JournalSizes(hash, rs[..|rs| - 1]);
      FrameSizes(hash, rs[|rs| - 1]);
      hide RecordFrame;
    }
  }

  // --------------------------------------------------------- building frames

  method AppendWord(out: seq<byte>, value: nat, width: nat) returns (out': seq<byte>)
    ensures out' == out + Little(value, width)
  {
    out' := out;
    for i := 0 to width
      invariant out' == out + Little(value, i)
    {
      LittleDigit(value, i);
      out' := out' + [value / Pow256(i) % 256];
    }
  }

  method MakeJournalFrame(hash: HashFunction, payload: seq<byte>) returns (out: seq<byte>)
    ensures out == Frame(hash, payload)
  {
    out := AppendWord(MAGIC, FORMAT_VERSION, 4);
    out := AppendWord(out, 0, 4);
    out := AppendWord(out, |payload|, 8);
    out := out + payload + hash(payload);
  }

  /** A bounded record always serializes; its frame is what `Frames` consists of. */
  method FrameOf(hash: HashFunction, r: AuditRecord) returns (frame: seq<byte>)
    requires BoundedAudit(r)
    ensures frame == RecordFrame(hash, r)
  {
    var payload := SerializeAuditRecord(r);
    frame := MakeJournalFrame(hash, payload.value);
  }

  method ReadWord(bytes: seq<byte>, offset: nat, width: nat) returns (value: nat)
    requires offset + width <= |bytes|
    ensures value == FromLittle(bytes[offset..offset + width])
  {
    value := 0;
    for i := 0 to width
      invariant value == FromLittle(bytes[offset..offset + i])
    {
      assert bytes[offset..offset + i] + [bytes[offset + i]] == bytes[offset..offset + i + 1];
      FromLittleSnoc(bytes[offset..offset + i], bytes[offset + i]);
      value := value + bytes[offset + i] * Pow256(i);
    }
  }

  /** One turn of the recovery loop: the checks in the order the program makes them. */
  method ParseFrame(hash: HashFunction, l: Bounds, bytes: seq<byte>, offset: nat) returns (found: Option<Found>)
    requires offset <= |bytes|
    ensures found == ReadFrame(hash, l, bytes[offset..])
  {
    hide DecodeAudit, FromLittle, Frame;
    ghost var s := bytes[offset..];
    if |bytes| - offset < HEADER_BYTES + DIGEST_BYTES {
      return None;
    }
    FrameSlices(bytes, offset);
    if bytes[offset..offset + 4] != MAGIC {
      return None;
    }
    var version := ReadWord(bytes, offset + 4, 4);
    var length := ReadWord(bytes, offset + 12, 8);
    if version != FORMAT_VERSION || length > l.maxStateBytes {
      return None;
    }
    var start := offset + HEADER_BYTES;
    if |bytes| - start < length + DIGEST_BYTES {
      return None;
    }
    var payload := bytes[start..start + length];
    assert payload == s[HEADER_BYTES..HEADER_BYTES + length];
    var stored := bytes[start + length..start + length + DIGEST_BYTES];
    assert stored == s[HEADER_BYTES + length..HEADER_BYTES + length + DIGEST_BYTES];
    if stored != hash(payload) {
      return None;
    }
    var record := DeserializeAuditRecord(payload);
    found := match record
             case None => None
             case Some(r) => Some(Found(r, HEADER_BYTES + length + DIGEST_BYTES));
  }

  lemma FrameSlices(bytes: seq<byte>, offset: nat)
    requires offset + HEADER_BYTES <= |bytes|
    ensures var s := bytes[offset..];
            && s[..4] == bytes[offset..offset + 4] && s[4..8] == bytes[offset + 4..offset + 8]
            && s[12..20] == bytes[offset + 12..offset + 20]
  {
  }

  // --------------------------------------------------------------- the store

  class Store {
    const hash: HashFunction
    const limits: Bounds
    var file: seq<byte>
    var journalBytes: nat
    var journalRecords: nat
    ghost var records: seq<AuditRecord>      // what the file holds

    ghost predicate Valid()
      reads this
    {
      && file == Frames(hash, records) && journalBytes == |file| && journalRecords == |records|
      && |records| <= limits.maxJournalRecords && (forall i :: 0 <= i < |records| ==> BoundedAudit(records[i]))
      && |file| <= limits.maxJournalBytes
    }

    constructor (hash: HashFunction, limits: Bounds)
      ensures Valid() && file == [] && records == []
      ensures this.hash == hash && this.limits == limits
    {
      this.hash, this.limits := hash, limits;
      file, journalBytes, journalRecords, records := [], 0, 0, [];
    }

    /** Appends one frame, or leaves the journal as it is and says why: too long a summary, the byte or
        record bound reached, or a write that failed. The size of the payload is not looked at. */
    method AppendAudit(r: AuditRecord, written: bool) returns (status: Status)
      requires Valid() && CodedOutcome(r.raw) && CodedOutcome(r.effective)
      modifies this
      ensures Valid()
      ensures var fits := G.JournalSize(old(records)) + G.FrameSize(r) <= limits.maxJournalBytes
                          && |old(records)| + 1 <= limits.maxJournalRecords;
              status == if |r.summary| > MAX_AUDIT_SUMMARY then Failure(OutOfRange, LIMIT_EXCEEDED)
                        else if !fits then Failure(Overflow, PERSISTENCE_TOO_LARGE)
                        else if !written then Failure(IoError, NO_REASON)
                        else Success
      ensures records == if status.Success? then old(records) + [r] else old(records)
    {
      hide RecordFrame, AuditFields;
      if |r.summary| > MAX_AUDIT_SUMMARY {
        return Failure(OutOfRange, LIMIT_EXCEEDED);
      }
      var frame := FrameOf(hash, r);
      FrameSizes(hash, r);
      JournalSizes(hash, records);
      if journalBytes + |frame| > limits.maxJournalBytes || journalRecords + 1 > limits.maxJournalRecords {
        return Failure(Overflow, PERSISTENCE_TOO_LARGE);
      }
      if !written {
        return Failure(IoError, NO_REASON);
      }
      AuditLength(r);
      FlatSnoc(Writer(hash), records, r);
      file := file + frame;
      journalBytes := journalBytes + |frame|;
      journalRecords := journalRecords + 1;
      records := records + [r];
      return Success;
    }

    /** Recovery of whatever the file holds. */
    method LoadJournal(rewritten: bool) returns (ok: bool, loaded: seq<AuditRecord>, damaged: bool)
      modifies this
      ensures var bytes := old(file);
              var s := Scan(hash, limits, bytes, 0, []);
              && ok == (|bytes| <= limits.maxJournalBytes + READ_SLACK && (s.damaged ==> rewritten))
              && (ok ==>
                    && loaded == s.records && damaged == s.damaged && file == Recovered(hash, bytes, s)
                    && journalBytes == |file| && journalRecords == |loaded|)
              && (!ok ==> file == bytes)
      ensures ok ==> records == loaded
    {
      loaded, damaged := [], false;
      journalBytes, journalRecords := 0, 0;
      if |file| > limits.maxJournalBytes + READ_SLACK {
        return false, [], false;
      }
      loaded, damaged := ScanFile();
      if damaged {
        var rebuilt := Reframed(loaded);
        if !rewritten {
          return false, [], true;
        }
        file := rebuilt;
      }
      journalBytes := |file|;
      journalRecords := |loaded|;
      records := loaded;
      ok := true;
    }

    method ScanFile() returns (loaded: seq<AuditRecord>, damaged: bool)
      ensures var s := Scan(hash, limits, file, 0, []); loaded == s.records && damaged == s.damaged
      ensures forall r :: r in loaded ==> BoundedAudit(r)
    {
      hide ReadFrame, BoundedAudit;
      loaded := [];
      var offset := 0;
      while offset < |file|
        invariant 0 <= offset <= |file|
        invariant Scan(hash, limits, file, 0, []) == Scan(hash, limits, file, offset, loaded)
        invariant forall r :: r in loaded ==> BoundedAudit(r)
        decreases |file| - offset
      {
        var found := ParseFrame(hash, limits, file, offset);
        if found.None? {
          return loaded, true;
        }
        FoundBounds(file[offset..]);
        if |loaded| + 1 > limits.maxJournalRecords {
          return loaded + [found.value.record], true;
        }
        loaded := loaded + [found.value.record];
        offset := offset + found.value.size;
      }
      damaged := false;
    }

    lemma FoundBounds(s: seq<byte>)
      ensures var f := ReadFrame(hash, limits, s);
              f.Some? ==> 0 < f.value.size <= |s| && BoundedAudit(f.value.record)
    {
    }

    method Reframed(rs: seq<AuditRecord>) returns (rebuilt: seq<byte>)
      requires forall r :: r in rs ==> BoundedAudit(r)
      ensures rebuilt == Frames(hash, rs)
    {
      hide BoundedAudit, RecordFrame;
      rebuilt := [];
      for i := 0 to |rs|
        invariant rebuilt == Frames(hash, rs[..i])
      {
        var frame := FrameOf(hash, rs[i]);
        rebuilt := rebuilt + frame;
        FramesGrow(hash, rs, i);
      }
      assert rs[..|rs|] == rs;
    }

    /** Rewrites the journal with the newest records, up to the first that does not fit. */
    method CompactJournal(audit: seq<AuditRecord>, wanted: u64, rewritten: bool) returns (ok: bool)
      requires Valid() && forall i :: 0 <= i < |audit| ==> BoundedAudit(audit[i])
      modifies this
      ensures Valid() && ok == rewritten
      ensures var keep := if wanted > limits.maxJournalRecords then limits.maxJournalRecords else wanted;
              records == if ok then G.FittingFrom(G.Newest(audit, keep), 0, limits.maxJournalBytes) else old(records)
    {
      var keep := if wanted > limits.maxJournalRecords then limits.maxJournalRecords else wanted;
      var begin := if |audit| > keep then |audit| - keep else 0;
      var newest := audit[begin..];
      assert newest == G.Newest(audit, keep);
      var rebuilt, kept := Rebuilt(newest);
      if !rewritten {
        return false;
      }
      file, journalBytes, journalRecords, records := rebuilt, |rebuilt|, |kept|, kept;
      ok := true;
    }

    method Rebuilt(newest: seq<AuditRecord>) returns (rebuilt: seq<byte>, kept: seq<AuditRecord>)
      requires forall i :: 0 <= i < |newest| ==> BoundedAudit(newest[i])
      ensures kept == G.FittingFrom(newest, 0, limits.maxJournalBytes) && rebuilt == Frames(hash, kept)
      ensures |rebuilt| <= limits.maxJournalBytes && kept <= newest
    {
      NothingWritten(hash);
      assert newest[..0] == [] && newest[0..] == newest;
      assert G.KeptFrom(newest, 0, 0, limits.maxJournalBytes) == G.FittingFrom(newest, 0, limits.maxJournalBytes);
      hide BoundedAudit, RecordFrame, G.FittingFrom, G.FrameSize, G.KeptFrom, Frames;
      rebuilt := [];
      var i := 0;
      while i < |newest|
        invariant 0 <= i <= |newest| && rebuilt == Frames(hash, newest[..i])
        invariant |rebuilt| <= limits.maxJournalBytes
        invariant G.KeptFrom(newest, i, |rebuilt|, limits.maxJournalBytes) == G.KeptFrom(newest, 0, 0, limits.maxJournalBytes)
      {
        var frame := FrameOf(hash, newest[i]);
        FramesGrow(hash, newest, i);
        G.KeptStep(newest, i, |rebuilt|, limits.maxJournalBytes);
        if |rebuilt| + |frame| > limits.maxJournalBytes {
          return rebuilt, newest[..i];
        }
        rebuilt := rebuilt + frame;
        i := i + 1;
      }
      G.KeptStep(newest, i, |rebuilt|, limits.maxJournalBytes);
      kept := newest[..i];
    }
  }

  lemma FramesGrow(hash: HashFunction, rs: seq<AuditRecord>, i: nat)
    requires i < |rs|
    ensures Frames(hash, rs[..i + 1]) == Frames(hash, rs[..i]) + RecordFrame(hash, rs[i])
    ensures |RecordFrame(hash, rs[i])| == G.FrameSize(rs[i])
  {
    FrameSizes(hash, rs[i]);
    FlatSplit(Writer(hash), rs, i);
    hide Flat, RecordFrame;
  }

  lemma NothingWritten(hash: HashFunction)
    ensures Frames(hash, []) == []
  {
  }

  // ------------------------------------------------------- crash and recovery

  /** A journal cut anywhere by a crash: recovery returns the records that are still whole, leaves
      exactly their frames, and a second recovery finds the same records undamaged. */
  method RecoverTwice(store: Store, cut: nat) returns (first: seq<AuditRecord>, second: seq<AuditRecord>, damagedAgain: bool)
    requires store.Valid() && Writable(store.limits, store.records) && cut <= |store.file|
    modifies store
    ensures first == second == old(store.records)[..Whole(Writer(store.hash), old(store.records), cut)]
    ensures !damagedAgain && store.Valid() && store.records == first
  {
    hide Scan, Whole, Flat, Storable;
    ghost var rs := store.records;
    CutAtAnyByte(store.hash, store.limits, rs, cut);
    CutIsWritable(store.hash, store.limits, rs, cut);
    store.file := store.file[..cut];
    var ok, damaged;
    ok, first, damaged := store.LoadJournal(true);
    ok, second, damagedAgain := store.LoadJournal(true);
  }

  lemma CutIsWritable(hash: HashFunction, l: Bounds, rs: seq<AuditRecord>, cut: nat)
    requires Writable(l, rs)
    ensures Writable(l, rs[..Whole(Writer(hash), rs, cut)])
  {
  }
}
