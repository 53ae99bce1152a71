# Oversubscription Governor: a verified model

The Oversubscription Governor answers how much deliberate oversubscription of a resource domain is
legal right now, binds the answer to policy, evidence and configuration generations and to a fabric
epoch, and keeps a durable audit journal. This project models its decision core in Dafny and proves
what it promises about it.

The parts, bottom up:

- `checked.dfy`: 64-bit checked arithmetic, the 64x64 to 128 limb product, the 128/64 division, ratios.
- `digest.dfy`: SHA-256 (FIPS 180-4) as a specification and as the buffered incremental hasher.
- `bytes.dfy`, `bytestream.dfy`, `statecodec.dfy`, `statefile.dfy`: the little-endian wire format, its
  writer and reader, the layout of audit records and durable state, the state file.
- `journal.dfy`, `store.dfy`, `torn_append.dfy`: journal frames, recovery from any file content, append and
  compaction, a crash in the middle of an append.
- `model.dfy`, `policy.dfy`, `policy_index.dfy`, `evidence.dfy`: the entities, validation, the sorted
  index, canonical snapshot bytes.
- `engine.dfy`: what an evaluation computes, as functions. `engine_loops.dfy`,
  `engine_demand_loops.dfy` and `engine_evaluate.dfy`: the evaluation as the program runs it, proved to
  compute that. `engine_conservation.dfy`, `engine_resources.dfy`, `engine_demand.dfy`,
  `engine_capacity.dfy`, `engine_order.dfy`: conservation, refinement, monotonicity, order independence.
- `amounts.dfy`, `engine_admission.dfy`, `engine_outcome.dfy`: the amounts, which evidence is admitted and what is
  found and authorized, as rules over policy and records.
- `hysteresis.dfy`: severity, confirmations, cooldown and fences of one domain.
- `governing.dfy`: the whole runtime as a value and every operation as a function of it.
  `governor.dfy`: the governor object, each of whose methods is proved to do exactly that.
- `frames.dfy`, `binding.dfy`, `history.dfy`, `publication.dfy`, `revalidation.dfy`, `discipline.dfy`:
  what every operation keeps, and what follows for every run. `ingestion.dfy`, `installation.dfy`: what becomes of
  every publication, installation, registration and adoption. `supersession.dfy`: when a decision still binds.
  `grants.dfy`: what a grant rests on.
- `authority.dfy`: fences, adoptions and sequences of publishers over whole runs. `durability.dfy`: what a
  reported success says about storage.
- `replay.dfy`, `recovery.dfy`, `recovery_runs.dfy`, `recovery_steps.dfy`, `recovery_options.dfy`,
  `readable.dfy`: replay and crash recovery, the options that make it safe, which saved states load.
  `journal_room.dfy`: when the journal takes another record.
- `sample.dfy`, `sample_evaluation.dfy`, `failing_entry.dfy`, `failing_runs.dfy`, `publishing_runs.dfy`,
  `early_relaxation.dfy`: the inputs under "Findings".
- `jobs.dfy`: the job queue, its workers and shutdown as interleaved steps.
- `sequences.dfy`: sums, sorting and flattening used throughout.

A run of the governor is a sequence of worlds, each obtained from the one before by one operation with
arbitrary arguments and an arbitrary choice of which storage writes are accepted. Storage either takes
a write whole or refuses it; at the byte level a crash may leave any prefix of the journal file.
Wall-clock time, the summary text and the digests of policies, domain configurations, inputs and
decisions are parameters; nothing is assumed about them, not even that different contents have
different digests. The concrete SHA-256 appears only where its own correctness is the point.

Where the code and the repository's documentation differ, the model follows the code; "Findings" says where.

## Model

| member | source | states |
|---|---|---|
| Checked.LongDivisionEx | src/checked.cpp:8-48 | succeeds iff the divisor is not zero and floor(a*b/d) fits 64 bits; then a*b = q*d + r with r < d, on 64-bit words throughout |
| Checked.WideProduct | src/checked.cpp:12-27 | the limb product with its carry chain is the exact 128-bit product |
| Checked.DivideWide | src/checked.cpp:33-48 | the shift-subtract loop with its lost-top-bit carry yields the unique quotient and remainder |
| Checked.MulDivFloorReference | src/checked.cpp:52-58 | the reference division agrees with the multiply-divide used everywhere else, failures included |
| Checked.MulDivCeil | src/checked.cpp:91-119 | succeeds iff the divisor is not zero and the ceiling fits 64 bits; then it is the least integer not below a*b/d |
| Checked.SumChecked | src/checked.cpp:121-128 | a checked sum fails exactly when the mathematical sum does not fit, not when some order of adding would |
| Checked.RatioOrderIsRational | src/checked.cpp:137-143 | cross-multiplied comparison orders ratios as rational numbers |
| Checked.CrossProductsFit | src/checked.cpp:137-139 | with terms in bound the cross products never wrap |
| Digest.HashInPieces | src/digest.cpp:92-143 | whatever the split into updates, the digest is the FIPS 180-4 hash of the concatenation |
| Digest.Sha256.Update | src/digest.cpp:92-108 | feeding bytes extends the message absorbed so far, across buffer and block boundaries |
| Digest.Sha256.Finish | src/digest.cpp:112-143 | the padding loop terminates from every buffer length and yields the section 6.2 hash of the section 5.1.1 padding |
| Digest.Sha256.Transform | src/digest.cpp:53-90 | one in-place block transform is the section 6.2 compression |
| Sha256Spec.PaddingInjective | src/digest.cpp:112-133 | different messages below 2^61 bytes are never padded to the same blocks |
| Wire.DecodeEncode | include/oversub/bytes.hpp:19-117 | any value within its declared bounds is read back as itself and leaves exactly what followed it |
| Wire.DecodeSound | include/oversub/bytes.hpp:57-110 | whatever a reader accepts is within bounds and re-encodes to the same bytes up to how true is spelt |
| ByteStream.ByteReader.Word | include/oversub/bytes.hpp:67-81 | the shifting byte loop reads a little-endian word or refuses without moving past the end |
| ByteStream.ByteReader.String | include/oversub/bytes.hpp:90-98 | a string is taken only when its length is within its bound and the buffer |
| ByteStream.ByteWriter.String | include/oversub/bytes.hpp:33-38 | an overlong string writes nothing, any other writes length and bytes |
| ByteStream.SerializeAuditRecord | src/state.cpp:359-389 | the writer calls produce exactly the record's field bytes, refused only for an overlong summary |
| ByteStream.DeserializeAuditRecord | src/state.cpp:391-428 | the reader calls accept exactly the buffers that are one record and nothing more, and return that record |
| StateCodec.AuditRoundTrip | src/state.cpp:359-428 | reading back a written audit record gives that record |
| StateCodec.AuditAccepted | src/state.cpp:391-428 | an accepted audit buffer is its record's encoding up to boolean bytes, and reads back as itself |
| StateCodec.StateRoundTrip | src/state.cpp:182-357 | reading back a written durable state gives that state, for every state within name and table bounds |
| StateCodec.StateAccepted | src/state.cpp:243-357 | an accepted state is within every table bound and reads back as itself |
| StateFile.StateSurvives | src/persistence.cpp:89-100 | a saved state file is read back as the state it was made from |
| StateFile.ReadsBackUnlessCrowded | src/state.cpp:313-314 | a saved file of a state within every other bound is read back as that state iff its evidence table is within the loader's bound; otherwise the complete, undamaged file is refused |
| StateFile.OnlyWholeFiles | src/persistence.cpp:280-316 | a state file cut short anywhere, or with anything appended, is refused and never half read |
| Journal.FrameReadsBack | src/persistence.cpp:405-450 | a written frame is read back, whatever follows it, iff its payload is no larger than max_state_bytes, a bound the writer does not look at |
| Journal.LongRecordIsLost | src/persistence.cpp:365-384 | a record with the longest summary whose frame is written under a max_state_bytes of 400 and never read back |
| Journal.CutAtAnyByte | src/persistence.cpp:386-481 | a journal cut at any byte yields exactly the records whose frames end at or before the cut; recovery leaves exactly their frames, and a second load finds them undamaged |
| JournalStore.ParseFrame | src/persistence.cpp:405-450 | one turn of the recovery loop: header, bounds, digest and record checks in program order |
| JournalStore.Store.LoadJournal | src/persistence.cpp:386-481 | for any file content: the records before the first damage, and the file rewritten to their frames only if damaged |
| JournalStore.Store.AppendAudit | src/persistence.cpp:365-384 | for every bound the store opens with: appends one whole frame, or says which bound or write failed and leaves the journal as it was |
| JournalStore.Store.CompactJournal | src/persistence.cpp:483-506 | the rewritten journal holds the newest records up to the first that does not fit the byte bound |
| JournalStore.RecoverTwice | src/persistence.cpp:386-481 | crash at any byte, load, load again: both loads return the same surviving records, the second undamaged |
| TornAppend.CrashDuringAppend | src/persistence.cpp:365-481 | a crash at any byte of the append of a decision's record: cut inside the frame, loading restores the runtime as before the decision; cut at its end, as after it was accepted |
| JournalStore.JournalSizes | src/persistence.cpp:102-113 | the sizes the journal bound is stated in are the byte lengths of the frames |
| PolicyIndexing.PolicyIndex.Rebuild | src/policy.cpp:361-372 | the index holds the policy's domains and classes in id order |
| PolicyIndexing.PolicyIndex.Domain | src/policy.cpp:374-379 | binary search in the index finds exactly what linear search in the policy finds, for every id |
| PolicyIndexing.PolicyIndex.ServiceClass | src/policy.cpp:381-386 | the same for service classes |
| EvidenceRules.CanonicalUpToOrder | src/evidence.cpp:54-132 | two snapshots of one kind hash the same bytes iff they differ at most in record order (and provenance) |
| EvidenceRules.HasDuplicateIds | src/evidence.cpp:22-26 | sorting and comparing neighbours finds a duplicate iff there is one |
| EngineLoops.ScanGuarantees | src/engine.cpp:343-382 | the guarantee loop stops at the first faulty record and otherwise leaves exact sums per resource and per class; its second overflow check is dead |
| DemandLoops.ScanDemand | src/engine.cpp:394-474 | the admission loop stops at the first faulty record and otherwise leaves exact totals by domain, resource, class and cell |
| DemandLoops.UnmappedGuaranteed | src/engine.cpp:476-492 | the unmapped amount is positive iff some guaranteed admission is not backed on its resource and class |
| EvaluateDomainLoops.EstablishBoundary | src/engine.cpp:508-607 | the boundary arithmetic closes exactly when every step fits, and the ceiling is the first least candidate |
| EvaluateDomainLoops.Breakdown | src/engine.cpp:495-645 | the entries as emitted, one per member up to the breakdown limit, with the sum of line 501 in the place of the contingent amount; when the domain's ratio ceiling fits no member's arithmetic fails |
| EvaluateDomainLoops.DecideOutcome | src/engine.cpp:752-833 | over the running sums the loops and branches give the outcome `Lawfulness.VerdictNamesTheRule` characterises rule by rule |
| EvaluateDomainLoops.EvaluateDomain | src/engine.cpp:92-843 | the whole loop-and-ledger evaluation computes the function the theorems below are about, and emits the per-resource entries as the program does |
| Amounts.MembersResolved | src/engine.cpp:292-332 | members resolve iff each is in the capacity evidence, in the domain's pool, of known health and scalable; each then counts its usable units when healthy, the floor of their degraded share when degraded, none when failed |
| Admission.AdmittedIff | src/engine.cpp:145-506 | evidence reaches the boundary iff it is complete and of the expected domain, epoch and generations, neither from the future nor past its budget, within bounds, without duplicates, covering every member, with sound records whose sums fit, and within the capacity limit |
| Admission.AgedIsStale | src/engine.cpp:219-253 | expected evidence of which any snapshot is past its budget is withheld, as stale unless some snapshot is from the future |
| Lawfulness.EffectiveRatioIsLeast | src/engine.cpp:508-525 | the effective ratio is the least of the configured ratio, the policy cap and, with a degraded or failed member, the degraded cap, or 1:1 when there is none |
| Lawfulness.AssessedIff | src/engine.cpp:493-645 | a boundary is established iff the evidence is admissible and every sum and bound fits; its ceiling is then the least of all ratio and risk bounds over the usable units, and its amounts are those of the records |
| Lawfulness.VerdictNamesTheRule | src/engine.cpp:752-833 | each outcome and reason iff its rule over policy and records is the first broken: guaranteed admissions backed on every member and class, no ineligible demand, guarantees and reserve covered, floor kept, ceiling kept (emergency iff the overage is at the threshold), burst pool, class shares, room left |
| Lawfulness.AuthorizedIff | src/engine.cpp:92-843 | an evaluation is authorized iff its evidence is admissible, the arithmetic closes, every rule is kept and room is left; it grants exactly the room that ceiling, guarantees, reserve and contingent units leave, and nothing otherwise |
| OrderIndependence.GuaranteeScan | src/engine.cpp:343-392 | the order-sensitive guarantee scan accepts exactly the lists with distinct ids, records in order and no overflowing member: a property of the set |
| OrderIndependence.DemandScan | src/engine.cpp:394-474 | the same for the admission scan and its three running totals |
| OrderIndependence.OrderDoesNotMatter | src/engine.cpp:285-506 | permuting members, resources, guarantees and records never changes whether a result is authoritative, and unless some record is rejected it leaves the whole evaluation equal |
| DemandMonotone.MoreDemandNeverRelaxes | src/engine.cpp:394-843 | raising committed or pending amounts never lowers the severity and never raises the increment, across overflow, emergency, burst and share exits |
| DemandMonotone.ScanHeavier | src/engine.cpp:394-474 | a heavier scan meets the same fault, or an overflow earlier |
| CapacityMonotone.LessCapacityNeverGrants | src/engine.cpp:309-329 | if every resource is no healthier and offers no more, ceiling and free authority do not grow, and whatever the smaller case grants the larger grants |
| Conservation.GrantConservation | src/engine.cpp:508-598 | a grant is exactly ceiling minus commitments minus reserve, the floor is below usable capacity below the ceiling, and the ceiling is within the policy cap and every enabled risk ceiling |
| Conservation.DeadExits | src/engine.cpp:779-793 | under a validated policy the floor-above-ceiling exit and the zero-ceiling emergency ratio can never be reached |
| Conservation.EffectiveRatioBounds | src/engine.cpp:509-524 | the effective ratio is between 1:1 and both configured ratio and policy cap, and impairment only lowers it |
| Conservation.RejectionWithholds | src/engine.cpp:116-143 | no rejection before the boundary ever carries authority |
| Resources.ResourcesRefineDomain | src/engine.cpp:495-645 | of the emitted entries: ceilings add up to the domain ratio ceiling short of less than one unit a member, guarantees and pending demand add up to the domain's, contingent amounts do iff guarantees and contingent demand are equal in total, and no entry ever shows an overage, so that none over its ceiling implies a domain within the ratio ceiling iff the domain is within it |
| Resources.EntryIsRight | src/engine.cpp:501 | for each member, exactly when the emitted contingent amount, overage and free amount are those of its demand; everything else in the entry always is |
| Resources.IntendedRefineDomain | src/engine.cpp:609-645 | with each member's own contingent demand and commitment in their places the amounts add up to the domain's, and no member over its ceiling means no domain over the ratio ceiling |
| FailingEntry.EntryHidesOverage | src/engine.cpp:501 | an evaluation with 250 committed over a ceiling of 200 whose only entry shows no contingent amount, no overage and 200 free units |
| Resources.ContingentByClasses | src/engine.cpp:421-467 | contingent demand is the sum of its service-class parts |
| GovernorRuntime.SettleInPlace | src/governor.cpp:893-940 | the in-place severity cascade is the hysteresis step the lemmas are about |
| HysteresisRules.RestrictionIsImmediate | src/governor.cpp:897-904 | severity 2 or more takes effect on the same evaluation and discards partial confirmations |
| HysteresisRules.RelaxationIsConfirmed | src/governor.cpp:923-939 | a restricted domain, whatever its counter stands at: its credit is the qualifying streak, plus the counter it started with while that streak is unbroken; while the credit is below the configured count it stays restricted with the counter equal to the credit, and the evaluation that reaches the count and no earlier one relaxes it |
| HysteresisRules.ConfirmedInFull | src/governor.cpp:923-939 | the relaxing evaluation completes a streak of the configured number iff the streak began after the domain was restricted or the counter was 0 then (or one confirmation is configured and the counter is not at its last value) |
| HysteresisRules.QualifyingProgress | src/governor.cpp:905-939 | from any sticky outcome, AT_LIMIT included, qualifying evaluations relax as soon as they and the counter left by earlier findings reach the configured number, and not before |
| HysteresisRules.QualifyingRunRelaxes | src/governor.cpp:923-939 | the configured number of consecutive qualifying evaluations relaxes from any sticky state, iff the 32-bit counter is not about to wrap |
| HysteresisRules.RelaxationIsEarned | src/governor.cpp:923-939 | a domain is relaxed iff the finding is within policy, leaves the margin, comes when the cooldown since the last escalation is over, and completes the confirmations |
| HysteresisRules.CooldownIsKept | src/governor.cpp:897-939 | after an escalation nothing is announced as within policy before the cooldown is over, over any run of evaluations on a clock that does not go back |
| HysteresisRules.LimitIsConfirmed | src/governor.cpp:905-917 | over any run of evaluations: AT_LIMIT findings in a row on an unrestricted domain are announced as AT_LIMIT iff their number, with what the counter held before them, in 32 bits, is at the configured one, and as within policy until then |
| HysteresisRules.LimitCountRestarts | src/governor.cpp:905-939 | any other finding restarts that count at 0, save a qualifying one within policy that leaves an AT_LIMIT unrelaxed, which is counted in |
| HysteresisRules.LimitAnnouncedIff | src/governor.cpp:905-939 | AT_LIMIT is announced of an unrestricted domain iff an AT_LIMIT finding is confirmed, or a finding within policy meets an AT_LIMIT, confirmed or not, and does not relax it |
| HysteresisRules.StickyIsAnnounced | src/governor.cpp:905-917 | announced and sticky outcome differ iff an AT_LIMIT finding is unconfirmed |
| HysteresisRules.FenceDiscipline | src/governor.cpp:953-957 | fences are held only at severity 3 or more, cleared only by WITHIN_POLICY, AT_LIMIT or REDUCTION_REQUIRED announced and sticky alike, never by an unconfirmed AT_LIMIT |
| Discipline.RunFollowsHysteresis | src/governor.cpp:885-1012 | in any part of any run of the whole governor without policy change, epoch advance or restart, a domain's stance is the hysteresis run over its own accepted evaluations there |
| Discipline.RestrictedUntilConfirmed | src/governor.cpp:893-948 | from any moment a domain is restricted, whatever its counter stands at, no decision about it is authorized before its credit reaches the configured number, whatever else happens in between; the evaluation that reaches it is the one announced as within policy |
| Discipline.FoundRestrictionCountsFromZero | src/governor.cpp:893-939 | a restriction found by an evaluation leaves the counter at 0, so from there on the credit is the streak and the configured confirmations are needed in full |
| Discipline.LimitAnnouncedWhenConfirmed | src/governor.cpp:905-948 | the same in every steady part of any run of the governor, for the decision handed out; it is never authorized, and a restricted domain stays at its outcome |
| Discipline.ConfirmedRunRelaxes | src/governor.cpp:923-939 | from any moment, whatever was heard before, a complete qualifying streak leaves the domain relaxed iff the confirmation counter does not wrap |
| Binding.EveryRunIsSound | src/governor.cpp:270-1031 | in every state of every run, restarts included: unique slots, content of the slot's kind, domain and generation and of the current epoch, a valid policy, fences only at severity 3 or more |
| Binding.DecisionDiscipline | src/governor.cpp:941-1001 | every decision is authorized iff raw and announced outcome are both WITHIN_POLICY; it then hands out exactly ceiling minus commitments minus reserve, otherwise nothing; its record carries the same flag, amount, outcomes, ceiling, commitment and overage; nothing authorized is fenced |
| Binding.EveryDecisionGrantsRightly | src/governor.cpp:822-1032 | the same of every decision of every run and of the journal record it leaves, and every record ever in journal, audit or saved audit grants within its own ceiling or nothing |
| Grants.EveryGrantIsEarned | src/governor.cpp:822-1032 | in every run a grant is exactly the room the rules leave over evidence that keeps them at that moment, each kind of which was accepted from a then entitled publisher with no new policy, epoch or runtime since |
| Revalidation.MismatchExitsUnreachable | src/governor.cpp:834-880 | from a reachable state the engine's domain, epoch and generation exits cannot be taken: evidence is bound or missing |
| PublisherAuthority.FencedUntilRegistered | src/governor.cpp:315-398 | in any run, restarts included: once an epoch advance or an explicit fence is saved, nothing is accepted from the publisher until a registration or adoption of it takes effect |
| PublisherAuthority.OnlyAdoptedIncarnation | src/governor.cpp:400-442 | in any run: once an adoption is saved, everything accepted from the publisher is of that incarnation until another adoption takes effect |
| PublisherAuthority.SequencesIncrease | src/governor.cpp:535-602 | in any run, restarts included: accepted sequences strictly increase within one registration |
| Installation.InstalledIff | src/governor.cpp:270-313 | a policy is installed iff requests are accepted, its generation can advance, it is valid and its content is new; the one in force is then the one asked for at the next generation, and otherwise nothing but the clock changes |
| Installation.DomainMovesOn | src/governor.cpp:280-293 | a domain keeps its generation while its content digest stays and otherwise takes a larger one, no less than claimed, iff it is not at the last generation there is |
| Installation.RegisteredIs | src/governor.cpp:358-398 | registering starts a new or fenced registration afresh and touches no other publisher, slot or policy |
| Installation.AdoptedIs | src/governor.cpp:400-442 | an adoption that takes effect starts the registration afresh and puts in question exactly the evidence that came from the publisher |
| PublisherAuthority.AdoptionIsDurable | src/governor.cpp:413-418 | a successful adoption of a publisher is on disk, that publisher's entry apart from any other, iff it changed the registration or the saved one was the live one already |
| Durability.SuccessIsDurable | src/governor.cpp:270-455 | for every operation that asks for a save: after a reported success storage holds the live state iff the operation had something to do or storage held it already; an operation that finds its change made saves nothing |
| Publication.PublicationAdvances | src/governor.cpp:535-668 | an accepted publication advances its slot's generation by exactly one, live and saved, and touches no other slot |
| Ingestion.PublishedAs | src/governor.cpp:535-668 | for every publication, each iff: accepted, duplicate, contradictory, replayed, out of order and failed write, in terms of who publishes and of evidence id, digest, sequence and claimed generation against what is held; duplicates and contradictions change nothing |
| Ingestion.AcceptedIsRemembered | src/governor.cpp:574-583 | after an accepted publication another under its evidence id is a duplicate iff it carries the same digest and otherwise refused as contradictory; neither changes anything |
| Ingestion.BoundIsDigested | src/governor.cpp:646-652 | the content kept carries the digest of its own canonical bytes at the generation it was given |
| Publication.OtherPublication | src/governor.cpp:501-668 | a duplicate changes nothing at all; a refused or unsaved publication moves no sequence, nothing on disk and no bookkeeping of a slot there was, and adds at most one slot, without content |
| Publication.OtherGenerations | src/governor.cpp:498-668 | for every pair of domain and kind: a publication that is not accepted leaves its generation alone iff it is not a first publication for that pair failing in its save only; then the generation goes from 0 to 1 |
| Publication.CorrectionIsRefused | src/governor.cpp:519-523 | after a first publication whose save failed, a corrected snapshot under a new evidence id that claims generation 1 is refused |
| Publication.RetryAfterFailedSave | src/governor.cpp:498-668 | a publication whose save failed and that is tried again unchanged is accepted iff its slot existed before; otherwise it is reported as a duplicate and its content is nowhere |
| History.GenerationsSurvive | src/governor.cpp:270-455 | policy, epoch, clock, publisher and save operations move no evidence generation |
| Revalidation.RunRemembered | src/governor.cpp:270-1031 | along every run each evidence generation names one snapshot and, within one incarnation, each policy generation one policy, and every decision of the incarnation was computed from them |
| Revalidation.EveryRevalidationReproduces | src/governor.cpp:1110-1182 | in every run, a decision of this runtime that revalidates is reproduced exactly by evaluating the current policy, configuration and evidence at its tick |
| Revalidation.FreshDecisionRevalidates | src/governor.cpp:1110-1182 | right after it is issued a decision revalidates iff it carries authority, is not fenced, and none of its evidence was flagged |
| Supersession.RevalidatesIff | src/governor.cpp:1110-1182 | at any later moment of any run a decision revalidates iff it carries authority, the governor has not restarted, no decision about its domain was recorded since, its domain is not fenced, policy and epoch are its own, and its evidence is held unflagged |
| Supersession.RevalidationSays | src/governor.cpp:1110-1182 | in every other case the reason: no authority, restart, epoch, policy, fence, superseded or stale evidence, each iff |
| Supersession.OneBindsAtATime | src/governor.cpp:1154-1157 | in every run at most one decision about a domain revalidates: a later one ends every earlier one for good |
| Replay.RebuildFromAudit | src/state.cpp:430-475 | the replay loop with its incremental index is the last-writer-wins fold |
| Recovery.LastWriterWins | src/state.cpp:430-475 | a domain with records comes back exactly as its last record describes it, any other as it was saved |
| RecoveryRuns.RecoveryRestores | src/persistence.cpp:327-362 | loading a saved state that is accepted restores the decision counter, a gapless end of the audit log that holds the whole live audit, the domain table in order, and each domain as described; evaluated domains are live up to an absent fence's epoch and an unannounced AT_LIMIT |
| Readability.SavedStateReads | src/state.cpp:182-357 | in every state of every run the state file on disk is read back as it was saved iff its evidence table is within the loader's bound: every other bound of the reader is kept by every operation |
| Readability.ReopensUnlessCrowded | src/governor.cpp:114-186 | in every state of every run open() accepts the storage iff the saved evidence table is within the loader's bound |
| Readability.FewPairsAlwaysLoad | src/governor.cpp:464-475 | a run that publishes for at most 16384 pairs of domain and kind always loads |
| RecoverySteps.EveryCrashRecovers | src/persistence.cpp:263-363 | a crash at any moment of any run that compacts safely, earlier crashes included: if the saved evidence table is within the loader's bound, load restores the live state in that sense, its whole audit included; if not, load refuses |
| RecoveryOptions.AmpleRunsAreSafe | src/governor.cpp:762-820 | every run compacts safely under options that leave slack between the save interval and what compaction keeps and the audit tail holds, as long as no more saves of recorded evaluations are refused in a row than the slack (3841 with the defaults) |
| RecoveryOptions.AmpleRunsRecover | src/persistence.cpp:263-363 | with such options and no more pairs published for than the loader takes, a crash at any moment of any run, between an append and the save that was due included, loses no decision |
| RecoverySteps.CompactionCovers | src/governor.cpp:779-790 | a compaction leaves a journal reaching from the last save to the newest record iff the newest records fit the byte bound and cover every unsaved decision (or nothing is unsaved) |
| JournalRoom.AppendsWhenRoom | src/governor.cpp:762-777 | with every write accepted a record is appended iff the journal has room for it or has once compacted |
| JournalRoom.EveryDecisionIsRecorded | src/governor.cpp:762-790 | when compaction keeps fewer records than the journal may hold and bytes for one more of any content, every evaluation of every run that gets as far as its record has it appended |
| JournalRoom.FullJournalIsTheEnd | src/governor.cpp:762-790 | when compaction keeps as many records as the journal may hold, and its bytes and the audit tail have room for that many, nothing is ever recorded after the journal is first full, restarts included |
| RecoverySteps.DecisionIsDescribed | src/governor.cpp:970-1024 | a record describes the runtime state its decision leaves behind |
| RecoverySteps.EpochFenceAfterRestart | src/state.cpp:457-468 | an epoch-advance fence survives a restart iff the domain has no record left in the journal or its last record is fenced |
| GovernorRuntime.Governor.Persist | src/governor.cpp:792-820 | saves exactly when forced or due; a failed save changes nothing durable |
| GovernorRuntime.Governor.AppendJournal | src/governor.cpp:762-777 | append, compact once on overflow, append again, then trim the audit tail |
| GovernorRuntime.Governor.InstallPolicy | src/governor.cpp:270-313 | the whole new state, with generations kept for unchanged domains and nothing changed by identical content |
| GovernorRuntime.Governor.AdvanceEpoch | src/governor.cpp:315-337 | the whole new state: contents dropped, publishers and domains fenced |
| GovernorRuntime.Governor.RegisterPublisher | src/governor.cpp:358-398 | the whole new state of registration, per case |
| GovernorRuntime.Governor.AdoptIncarnation | src/governor.cpp:400-442 | the whole new state of adoption, with the publisher's slots flagged |
| GovernorRuntime.Governor.Publish | src/governor.cpp:535-668 | the whole new state of a publication, including what a failed save does not roll back |
| GovernorRuntime.Governor.EvaluateLocked | src/governor.cpp:822-1032 | the whole new state of an evaluation: nothing but the clock changes unless the audit record became durable |
| GovernorRuntime.Governor.Revalidate | src/governor.cpp:1110-1182 | the first reason, in program order, why a decision no longer binds |
| GovernorRuntime.Governor.Reopen | src/governor.cpp:157-183 | load, replay, next incarnation, all evidence required again; refused, and nothing changed, exactly when the state does not load or the incarnation cannot advance |
| PublishingRuns.RetriedPublicationLost | src/governor.cpp:519-523 | a first publication that is reported as a success and stored nowhere |
| PublishingRuns.SavedButNeverLoaded | src/governor.cpp:464-475 | a run whose every operation and write succeeds and whose saved state open() refuses from then on |
| FailingRuns.EpochFenceForgotten | src/state.cpp:457-468 | a run in which the fence of an epoch advance is gone after the restart |
| FailingRuns.CompactionLosesDecision | src/governor.cpp:779-790 | a run without any failure in which a compaction removes the only trace of an unsaved decision |
| FailingRuns.WrappedConfirmationIsLost | src/governor.cpp:923-939 | a sequence of evaluations after which the configured one confirmation does not relax the domain |
| FailingRuns.RetriedAdoptionForgotten | src/governor.cpp:413-418 | a run in which an adoption reports success and is gone after the restart |
| EarlyRelaxation.AuthorizedAtOnce | src/governor.cpp:329-334 | a run in which three confirmations are configured and the first qualifying evaluation of a domain restricted and fenced by an epoch advance clears the fence and is authorized |
| FailingRuns.UnconfirmedLimitIsAnnounced | src/governor.cpp:923-939 | two evaluations after which AT_LIMIT is announced on one finding of it where three are configured |
| Installation.ChangedDomainFallsBack | src/governor.cpp:288-291 | a changed domain at the last generation that comes back at generation 1 |
| FailingRuns.RetriedRegistrationForgotten | src/governor.cpp:371-384 | a run in which a first registration reports success and is gone after the restart |
| PublishingRuns.RetriedInstallForgotten | src/governor.cpp:296-299 | a run in which a policy installation reports success and the policy before it is back after the restart |
| FailingRuns.OneDecisionAndNoMore | src/governor.cpp:762-790 | a run with room for one journal record in which one decision is recorded and no evaluation after it ever is, whatever is done |
| Jobs.JobsFinishExactlyOnce | src/governor.cpp:1040-1108 | over all interleavings every accepted job is completed at most once, completed iff done, and all are done when shutdown returns; a job that ends Cancelled changed nothing but the clock |
| Jobs.CancelledEvaluationActsNot | src/governor.cpp:964-968 | an evaluation that reports cancellation, or finds the flag raised, changes no audit, domain or counter |
| Jobs.DrainShrinks | src/governor.cpp:1071-1108 | once the queue is cleared every worker or shutdown step shrinks the remaining work and no client step grows it |
| Jobs.DrainNeverStuck | src/governor.cpp:234-266 | until shutdown returns some worker or shutdown step is enabled |

## Findings

What the code was found not to do, each with an input that shows it and the exact condition under which it does.

| member | source | what fails and when |
|---|---|---|
| FailingEntry.EntryHidesOverage | src/engine.cpp:501 | The checked addition is given the accumulated contingent amount as its result and a commitment nothing assigns to as its first operand. Every emitted entry shows its guarantees as contingent amount and no overage. `Resources.EntryIsRight`: the contingent amount is right iff it equals the guarantees on the member, the overage iff the member's commitment is within its ceiling. `Resources.ResourcesRefineDomain`: the same for the domain. Outcomes and authority do not depend on it. |
| PublishingRuns.SavedButNeverLoaded | src/governor.cpp:464-475 | Publishing never looks at the size of the evidence table, and slots of domains no longer in the policy stay; loading refuses more than 16384 (src/state.cpp:314). After two policies of 4096 domains each a state of 16385 slots is saved and can never be opened again. `Readability.ReopensUnlessCrowded`: this is the only bound that can be exceeded; `Readability.FewPairsAlwaysLoad`: it is not while at most 16384 pairs were published for. |
| FailingRuns.EpochFenceForgotten | src/state.cpp:457-468 | README.md lines 202-205 call fences durable. Replay overwrites the fence of an epoch advance with that of the domain's last journal record. `RecoverySteps.EpochFenceAfterRestart`: the fence survives iff no record of the domain is left in the journal or its last one is itself fenced. |
| FailingRuns.CompactionLosesDecision | src/governor.cpp:779-790 | A compaction keeps the newest records whether or not a save accounts for the others. `RecoverySteps.CompactionCovers`: nothing is lost iff the kept records fit and cover every unsaved decision; `RecoveryOptions.Ample`: options under which that always holds, the defaults among them. |
| EarlyRelaxation.AuthorizedAtOnce | src/governor.cpp:329-334 | README.md lines 195-200 promise that a restriction is relaxed only after the configured confirmations. AT_LIMIT findings count up the same counter (lines 905-917), an epoch advance restricts and fences the domain without clearing it, and a restart keeps it. `HysteresisRules.ConfirmedInFull`: the relaxing evaluation completes the configured streak iff the streak began after the restriction or the counter was 0 then; `Discipline.FoundRestrictionCountsFromZero`: it was if an evaluation found the restriction. A sticky AT_LIMIT is relaxed early in the same way, exactly as `HysteresisRules.QualifyingProgress` says. |
| FailingRuns.UnconfirmedLimitIsAnnounced | src/governor.cpp:923-939 | include/oversub/policy.hpp line 62 gives the escalation confirmations as those before AT_LIMIT is announced. An unconfirmed AT_LIMIT is kept as the domain's outcome, and the next finding within policy that does not relax it announces it; such a finding also counts as a confirmation of it. `HysteresisRules.LimitAnnouncedIff` says when AT_LIMIT is announced, `HysteresisRules.LimitCountRestarts` what the count goes on from: a finding within policy announces an AT_LIMIT that is kept iff it does not qualify or does not complete the confirmations for relaxing it. Nothing is granted either way. |
| Installation.ChangedDomainFallsBack | src/governor.cpp:288-291 | A changed domain is meant to take the next generation. The generation is the installer's to choose, up to the last 64-bit value, and the next one then wraps. `Installation.DomainMovesOn`: a changed domain moves on iff it is not at the last value. |
| FailingRuns.WrappedConfirmationIsLost | src/governor.cpp:923-939 | README.md lines 195-200 promise that the configured confirmations relax a domain. The 32-bit counter, shared with AT_LIMIT findings, wraps. `HysteresisRules.QualifyingRunRelaxes`: they do iff the counter is not at its last value. |
| FailingRuns.RetriedAdoptionForgotten | src/governor.cpp:413-418 | An adoption whose save failed stays in memory, so trying it again finds nothing to do, reports success and saves nothing. `PublisherAuthority.AdoptionIsDurable`: a successful adoption is durable iff it changed the registration or storage had it already. |
| PublishingRuns.RetriedInstallForgotten | src/governor.cpp:296-299 | The same of a policy: `install_policy` finds the content in force and returns before it saves. `Durability.SuccessIsDurable`, for every operation that saves: storage holds the live state iff the operation had something to do or storage held it already. |
| FailingRuns.RetriedRegistrationForgotten | src/governor.cpp:371-384 | The same of a first registration, under the same condition. |
| FailingRuns.OneDecisionAndNoMore | src/governor.cpp:762-790 | When compaction keeps as many records as the journal may hold, and there are bytes for them, compacting a full journal frees nothing: every later evaluation fails with an overflow, for good. `JournalRoom.AppendsWhenRoom`: an append succeeds iff there is room, or is after compaction; `JournalRoom.EveryDecisionIsRecorded` and `JournalRoom.FullJournalIsTheEnd`: options under which there always is room, the defaults among them, and under which a full journal is the end. |
| Journal.LongRecordIsLost | src/persistence.cpp:365-384 | Appending does not compare the payload with max_state_bytes, reading does (line 425): a larger frame is written and counts as damage at the next load, with everything after it. `Journal.FrameReadsBack`: a frame is read back iff its payload is within the bound. It concerns direct users of `Store`: a governor's own payloads are 202 bytes and a summary of outcome and reason, shorter than any state its open() must have saved within the same bound. |
| PublishingRuns.RetriedPublicationLost | src/governor.cpp:519-523 | A first publication whose save fails is not fully undone: the new slot keeps the evidence id, the digest and generation 1 without the content. Publishing the same again is taken for a duplicate, reported as a success and stored nowhere (`Publication.RetryAfterFailedSave`: the retry is accepted iff the slot existed before). The generation is used up, so generations do not advance by one per saved publication (`Publication.OtherGenerations`: a failed publication leaves its generation alone iff it is not a first one failing in its save only), and a corrected snapshot claiming generation 1 is refused (`Publication.CorrectionIsRefused`). |

## Left out

- Corrective intents, notes, detail and explanation text, `resource_set_fold` and `result_digest`: presentation
  of an evaluation whose outcome, reason, accounting and authority are modelled.
- Accounting of a rejected evaluation: read as absent; the program leaves partial sums in it, and the
  audit record of a rejected evaluation accordingly shows zero amounts in the model.
- Engine.ShareFault: checks the classes in policy order, where the program takes them in hash-map order; which
  of several exceeded shares is reported first is therefore not captured, that one is reported is.
- Reasons of invalid policies and snapshots: `ValidPolicy` and `ValidSnapshot` say exactly which inputs are
  accepted; the rejection carries one representative reason. The comparison of a policy's own digest is left out.
- Append that fails halfway: a failed append leaves the file as it was; a torn tail is modelled as a
  crash, not as something the same runtime keeps appending to.
- Governor methods on a runtime that is not open, `history`, `domain_state`, `stats`, `explain`: refusals and
  reads without consequences.
- An open() whose own save fails: it leaves the storage as it was and no runtime, so it is no step of a run. One that
  refuses the stored state is a step that changes nothing.
- Governing.Reopened: a restart keeps the options, where open() may be given others, and with them other bounds.
- Governing.Load: takes every frame of an undamaged journal as readable, which is so for a max_state_bytes of 458 or
  more; `Journal.FrameReadsBack` says which frames are dropped below that.
- Synchronous submission with no worker threads: it is `Governor.EvaluateLocked`, followed by a finished job.
- The slot and policy indexes inside the governor object: lookups there are linear, and the policy index is
  proved to agree with linear search on its own.
- StateCodec.EncodeState: durable state is written and read at the level of field values, not call by call
  as for audit records; `serialize_state` and `deserialize_state` append to and advance through one
  buffer, which this does not show. The writer silently drops a name longer than 128 bytes; the
  round trip is stated for names within that bound.
- JournalStore.Store.LoadJournal: the report's `journal_bytes_recovered` and detail text.
- Jobs: exceptions thrown by an evaluation, and two threads shutting down at once.
- Sockets, child processes, file-system calls, command line, benchmarks and the synthetic generator.
