/** A crash in the middle of a journal append, at whatever byte. */
module TornAppend {
  import opened Checked
  import opened Wire
  import opened Model
  import opened Flattening
  import opened HysteresisRules
  import opened Replay
  import opened Governing
  import opened Frames
  import opened RecoveryRuns
  import opened RecoverySteps
  import opened Readability
  import J = Journal
  import C = StateCodec

  /** What loading finds of a journal of whole frames that ends in a torn one. */
  lemma TornFrame(hash: HashFunction, l: J.Bounds, rs: seq<AuditRecord>, r: AuditRecord, cut: nat)
    requires J.Writable(l, rs + [r]) && |J.Frames(hash, rs)| <= cut <= |J.Frames(hash, rs + [r])|
    ensures J.Scan(hash, l, J.Frames(hash, rs + [r])[..cut], 0, []).records
            == if cut < |J.Frames(hash, rs + [r])| then rs else rs + [r]
  {
    hide J.Scan, Flat, Whole, J.Storable, J.RecordFrame;
    var all := rs + [r];
    var n := Whole(J.Writer(hash), all, cut);
    J.CutAtAnyByte(hash, l, all, cut);
    assert all[..|rs|] == rs && all[..|all|] == all;
    if n < |rs| {
      FlatPrefix(J.Writer(hash), all, n + 1, |rs|);
    }
  }

  /** The largest record the governor writes, without its frame. */
  const MAX_PAYLOAD: nat := 202 + MAX_AUDIT_SUMMARY

  lemma BoundedIsWritable(l: J.Bounds, rs: seq<AuditRecord>)
    requires RecordsBounded(rs) && |rs| <= l.maxJournalRecords && MAX_PAYLOAD <= l.maxStateBytes
    ensures J.Writable(l, rs)
  {
    forall i | 0 <= i < |rs| ensures J.Storable(l, rs[i]) {
      C.AuditLength(rs[i]);
    }
  }

  /** The storage when the append of a decision's record is cut short by a crash, and the whole of it when
      it is not: what is loaded restores the runtime as it was before the decision in the first case, and
      as it is once the decision is accepted in the second. `v` is the world the record is appended in:
      the one the evaluation found, or that after a compaction with room. */
  lemma CrashDuringAppend(k: Digests, hash: HashFunction, l: J.Bounds, w: World, v: World, log: seq<AuditRecord>, domain: u64,
                          wall: u64, cut: nat)
    requires Recoverable(w, log) && Within(w) && |log| + 1 < U64_LIMIT
    requires l.maxJournalRecords == w.options.maxJournalRecords && l.maxStateBytes >= MAX_PAYLOAD
    requires v == w || (v == Compact(w, Io(true, true, true)).world && Roomy(w))
    requires DomainIndex(w.state.domains, domain).Some? || |w.state.domains| < MAX_DOMAINS_STATE
    requires var r := RecordFor(k, w, domain, DecideFor(k, w, domain, w.clock).0, DecideFor(k, w, domain, w.clock).1, wall);
             && FrameFits(v.options, v.disk.journal, r)
             && |J.Frames(hash, v.disk.journal)| <= cut <= |J.Frames(hash, v.disk.journal + [r])|
    ensures var (d, a) := DecideFor(k, w, domain, w.clock);
            var r := RecordFor(k, w, domain, d, a, wall);
            var file := J.Frames(hash, v.disk.journal + [r]);
            var t := Load(v.options, Disk(v.disk.saved, J.Scan(hash, l, file[..cut], 0, []).records));
            if cut < |file| then Restored(v, log, t)
            else Restored(Accepted(WithRecord(v, r), domain, d, a), log + [r], t)
  {
    hide Recoverable, DecideFor, RecordFor, Accepted, Settled, Compact, Roomy, Restored, Load, J.Scan, J.Frames, J.Writable,
      Within;
    var (d, a) := DecideFor(k, w, domain, w.clock);
    var r := RecordFor(k, w, domain, d, a, wall);
    JournalWritable(k, l, w, v, domain, wall);
    TornFrame(hash, l, v.disk.journal, r, cut);
    if v != w {
      CompactRecoverable(w, log, Io(true, true, true));
    }
    RecoveryRestores(v, log);
    var u := Accepted(WithRecord(v, r), domain, d, a);
    AcceptedRecords(k, w, v, domain, w.clock, wall, r, u);
    RecordedRecoverable(v, u, log, r, Settled(w, domain, d, a));
    RecoveryRestores(u, log + [r]);
    AcceptedDisk(v, r, domain, d, a);
  }

  lemma JournalWritable(k: Digests, l: J.Bounds, w: World, v: World, domain: u64, wall: u64)
    requires Within(w) && (v == w || v == Compact(w, Io(true, true, true)).world)
    requires l.maxJournalRecords == w.options.maxJournalRecords && l.maxStateBytes >= MAX_PAYLOAD
    requires var r := RecordFor(k, w, domain, DecideFor(k, w, domain, w.clock).0, DecideFor(k, w, domain, w.clock).1, wall);
             FrameFits(v.options, v.disk.journal, r)
    ensures var r := RecordFor(k, w, domain, DecideFor(k, w, domain, w.clock).0, DecideFor(k, w, domain, w.clock).1, wall);
            J.Writable(l, v.disk.journal + [r])
  {
    hide DecideFor, RecordFor, C.BoundedAudit, DomainsCoded, KindsCoded, EvidenceCoded, J.Writable;
    var r := RecordFor(k, w, domain, DecideFor(k, w, domain, w.clock).0, DecideFor(k, w, domain, w.clock).1, wall);
    DecisionWithin(k, w, domain, w.clock, wall);
    CompactWithin(w, Io(true, true, true));
    assert RecordsBounded(v.disk.journal + [r]);
    BoundedIsWritable(l, v.disk.journal + [r]);
  }

  /** The world once the record is in the journal and the audit tail. */
  function WithRecord(v: World, r: AuditRecord): World {
    v.(disk := v.disk.(journal := v.disk.journal + [r]),
       state := v.state.(audit := Newest(v.state.audit + [r], v.options.maxAuditRecords)))
  }

  lemma AcceptedDisk(v: World, r: AuditRecord, domain: u64, d: Decision, a: Announcement)
    ensures var u := Accepted(WithRecord(v, r), domain, d, a);
            u.options == v.options && u.disk == Disk(v.disk.saved, v.disk.journal + [r])
    ensures v.disk == Disk(v.disk.saved, v.disk.journal)
  {
    hide Settled, Enter;
  }
}
