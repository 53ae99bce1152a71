/** The state file around a serialized state (make_state_file and Store::load in src/persistence.cpp). */
module StateFile {
  import opened Checked
  import opened Endian
  import opened Wire
  import opened Model
  import opened StateCodec

  const STATE_MAGIC: seq<byte> := [79, 83, 71, 86, 83, 84, 65, 49]      // "OSGVSTA1"
  const STATE_FORMAT: u32 := 1
  const STATE_HEADER: nat := 24

  function StateHeader(length: nat): (h: seq<byte>)
    ensures |h| == STATE_HEADER
  {
    STATE_MAGIC + Little(STATE_FORMAT, 4) + Little(0, 4) + Little(length, 8)
  }

  function FileOf(hash: HashFunction, payload: seq<byte>): (f: seq<byte>)
    ensures |f| == STATE_HEADER + |payload| + 32
  {
    StateHeader(|payload|) + payload + hash(payload)
  }

  /** The payload of a state file, or None for any file that is not exactly one. The reserved word is
      not looked at. */
  function PayloadOf(hash: HashFunction, maxBytes: u64, file: seq<byte>): Option<seq<byte>> {
    if |file| < STATE_HEADER + 32 || file[..8] != STATE_MAGIC then None
    else
      var format, length := FromLittle(file[8..12]), FromLittle(file[16..24]);
      if format != STATE_FORMAT || length > maxBytes || |file| != STATE_HEADER + length + 32 then None
      else
        var payload := file[STATE_HEADER..STATE_HEADER + length];
        if file[STATE_HEADER + length..] != hash(payload) then None else Some(payload)
  }

  /** What loading makes of a state file, before the policy is validated. */
  function ReadStateFile(hash: HashFunction, maxBytes: u64, file: seq<byte>): Option<DurableState> {
    match PayloadOf(hash, maxBytes, file)
    case None => None
    case Some(payload) => DecodeState(payload)
  }

  lemma StateHeaderParts(length: nat, rest: seq<byte>)
    requires length < U64_LIMIT
    ensures var s := StateHeader(length) + rest;
            && s[..8] == STATE_MAGIC && FromLittle(s[8..12]) == STATE_FORMAT && FromLittle(s[16..24]) == length
  {
    Widths();
    var s := StateHeader(length) + rest;
    assert s[8..12] == Little(STATE_FORMAT, 4) && s[16..24] == Little(length, 8);
    LittleRoundTrip(STATE_FORMAT, 4);
    LittleRoundTrip(length, 8);
  }

  lemma PayloadReadsBack(hash: HashFunction, maxBytes: u64, payload: seq<byte>)
    requires |payload| <= maxBytes
    ensures PayloadOf(hash, maxBytes, FileOf(hash, payload)) == Some(payload)
  {
    var file := FileOf(hash, payload);
    assert file == StateHeader(|payload|) + (payload + hash(payload));
    StateHeaderParts(|payload|, payload + hash(payload));
    assert file[STATE_HEADER..STATE_HEADER + |payload|] == payload;
    assert file[STATE_HEADER + |payload|..] == hash(payload);
    hide StateHeader;
  }

  /** A saved state that fits its bound is read back as it was. */
  lemma StateSurvives(hash: HashFunction, maxBytes: u64, s: DurableState)
    requires BoundedState(s) && s.schemaVersion == STATE_SCHEMA_VERSION && |EncodeState(s)| <= maxBytes
    ensures ReadStateFile(hash, maxBytes, FileOf(hash, EncodeState(s))) == Some(s)
  {
    hide BoundedState, EncodeState, DecodeState;
    PayloadReadsBack(hash, maxBytes, EncodeState(s));
    StateRoundTrip(s);
  }

  /** A saved state within every other bound is read back exactly when its evidence table is within its own;
      otherwise its file, complete and undamaged, is refused. */
  lemma ReadsBackUnlessCrowded(hash: HashFunction, maxBytes: u64, s: DurableState)
    requires BoundedState(s.(evidence := [])) && (forall e :: e in s.evidence ==> BoundedSlotState(e))
    requires s.schemaVersion == STATE_SCHEMA_VERSION && |EncodeState(s)| <= maxBytes
    ensures ReadStateFile(hash, maxBytes, FileOf(hash, EncodeState(s)))
            == if |s.evidence| <= MAX_EVIDENCE_SLOTS then Some(s) else None
  {
    if |s.evidence| <= MAX_EVIDENCE_SLOTS {
      StateSurvives(hash, maxBytes, s);
    } else {
      SlotsTakeRoom(s);
      hide BoundedState, EncodeState, DecodeState;
      PayloadReadsBack(hash, maxBytes, EncodeState(s));
      TooManySlots(s);
    }
  }

  /** A state file cut short anywhere is refused, never half read; so is one with anything after it. */
  lemma OnlyWholeFiles(hash: HashFunction, maxBytes: u64, payload: seq<byte>, other: seq<byte>)
    requires |payload| < U64_LIMIT && other != FileOf(hash, payload)
    requires other <= FileOf(hash, payload) || FileOf(hash, payload) <= other
    ensures ReadStateFile(hash, maxBytes, other) == None
  {
    var file := FileOf(hash, payload);
    if |other| >= STATE_HEADER {
      var rest := other[STATE_HEADER..];
      assert other == StateHeader(|payload|) + rest by {
        assert file[..STATE_HEADER] == StateHeader(|payload|);
        assert other[..STATE_HEADER] == file[..STATE_HEADER];
      }
      StateHeaderParts(|payload|, rest);
      assert |other| != |file|;
      hide StateHeader;
    }
  }
}
