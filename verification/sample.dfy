/** A valid policy of any number of like domains, for inputs that show where a property fails. */
module Sample {
  import opened Checked
  import opened Wire
  import opened Model
  import opened Sorting
  import opened PolicyRules

  /** One pool, one member resource, twofold oversubscription, no reserve. */
  function SampleDomain(id: u64): DomainConfig {
    DomainConfig(id, 1, [], 1, [1], Ratio(2, 1), false, Ratio(1, 1), 0, 0, false, 0)
  }

  const SAMPLE_CLASS := ServiceClass(1, [], 0, true, 0, false, 0)

  const SAMPLE_LIMITS := Limits(HARD_MAX_DOMAINS, HARD_MAX_RESOURCES_PER_DOMAIN, HARD_MAX_SERVICE_CLASSES, HARD_MAX_RECORDS,
                                HARD_MAX_RECORDS, HARD_MAX_CORRECTIVE_INTENTS, HARD_MAX_EXPLANATION_LINES,
                                HARD_MAX_EXPLANATION_BYTES, HARD_MAX_RESOURCES_PER_DOMAIN, HARD_MAX_CAPACITY_UNITS)

  /** Domains `first`, `first + 1` and so on, `count` of them. */
  function SamplePolicy(first: u64, count: nat): (p: Policy)
    requires first + count <= U64_LIMIT
    ensures |p.domains| == count && forall i :: 0 <= i < count ==> p.domains[i] == SampleDomain(first + i)
  {
    Policy(1, 1, [], Ratio(2, 1), seq(count, i requires 0 <= i < count => SampleDomain(first + i)), [SAMPLE_CLASS],
           RiskBudget(1, 1, true, HARD_MAX_CAPACITY_UNITS, false, 0), Thresholds(PPM_SCALE, PPM_SCALE, PPM_SCALE),
           Hysteresis(1, 1, 0, 0), SAMPLE_LIMITS, 1, 1, 1, ZeroDigest())
  }

  lemma SampleIsValid(first: u64, count: nat, generation: u64, digest: Digest)
    requires 0 < first && first + count <= U64_LIMIT && count <= HARD_MAX_DOMAINS && generation != 0
    ensures ValidPolicy(SamplePolicy(first, count).(generation := generation, digest := digest))
    ensures generation == 1 && digest == ZeroDigest() ==> ValidPolicy(SamplePolicy(first, count))
  {
    var p := SamplePolicy(first, count).(generation := generation, digest := digest);
    forall d | d in p.domains ensures ValidDomain(p, d) {
      var i :| 0 <= i < count && p.domains[i] == d;
    }
    assert generation == 1 && digest == ZeroDigest() ==> p == SamplePolicy(first, count);
  }
}
