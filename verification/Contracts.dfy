/** Guardian's API-neutral contracts: the severity order, recovery, and the cross-field
    invariants every frozen contract validates when it is built. */
module Contracts {
  import opened Ordering

  datatype Option<+T> = None | Some(value: T)

  /** One value, or the error the source raises instead of producing it. */
  datatype Result<+T, +E> = Ok(value: T) | Err(error: E) {
    predicate IsFailure() {
      Err?
    }

    function PropagateFailure<U>(): Result<U, E>
      requires Err?
    {
      Err(error)
    }

    function Extract(): T
      requires Ok?
    {
      value
    }
  }

  // Times are integer milliseconds, as MongoDB stores dates.
  const LEASE: int := 300_000
  const ATTEMPT_DEADLINE: int := 240_000
  const RECHECK_DELAY: int := 60_000
  const EARLY_CUTOFF: int := 45 * 60_000
  const FINAL_MINIMUM: int := 60 * 60_000
  const FINAL_FORCED: int := 120 * 60_000
  const MAX_ATTEMPTS_PER_KIND: nat := 2
  const MAX_ROOT_IMPACTED_DEVICES: nat := 20
  const MAX_MODEL_TURNS: nat := 10
  const MAX_MCP_CALLS: nat := 7
  const MAX_RULE_READS: nat := 8

  datatype Band = NoImpact | Info | Warning | Critical

  function Rank(band: Band): nat {
    match band
    case NoImpact => 0
    case Info => 1
    case Warning => 2
    case Critical => 3
  }

  /** The worse of two bands; the first of two equal ones. */
  function Worse(a: Band, b: Band): Band {
    if Rank(a) < Rank(b) then b else a
  }

  /** The worst of any number of bands; none when there are none. */
  function Worst(bands: seq<Band>): Band {
    if bands == [] then NoImpact else Worse(bands[0], Worst(bands[1..]))
  }

  datatype Coverage = Complete | Partial | Insufficient | NotApplicable

  datatype Recovery = Unaffected | Recovered | Unrecovered

  datatype Confidence = Low | Medium

  /** Recovery follows from the published peak and current alone. */
  function RecoveryFor(peak: Band, current: Band): Recovery {
    if Rank(current) >= Rank(Warning) then Unrecovered
    else if Rank(peak) >= Rank(Warning) then Recovered
    else Unaffected
  }

  predicate Ordered(peak: Band, current: Band) {
    Rank(current) <= Rank(peak)
  }

  /** The invariants shared by a run's verdict and the root's published result. */
  predicate ValidPublished(peak: Band, current: Band, recovery: Recovery, coverage: Coverage) {
    && Ordered(peak, current)
    && recovery == RecoveryFor(peak, current)
    && (current == NoImpact ==> coverage == Complete)
  }

  datatype Source = MonitoringSource | DeploymentSource | RuleSource(plugin: Name) | AgentSource

  datatype CompactDevice = CompactDevice(mac: Name, site: Name, peak: Band, current: Band)

  /** The composed result of one attempt; its texts (summary and gaps) are not modelled. */
  datatype Verdict = Verdict(
    peak: Band,
    current: Band,
    recovery: Recovery,
    confidence: Confidence,
    coverage: Coverage,
    sources: seq<Source>,
    devices: seq<CompactDevice>,
    devicesOmitted: nat)

  predicate ValidDevice(device: CompactDevice) {
    Ordered(device.peak, device.current)
  }

  predicate ValidVerdict(v: Verdict) {
    && ValidPublished(v.peak, v.current, v.recovery, v.coverage)
    && (forall d | d in v.devices :: ValidDevice(d) && Rank(d.peak) <= Rank(v.peak))
  }

  // Worst is the maximum: it bounds every member and is one of them.

  lemma {:induction false} WorstBounds(bands: seq<Band>)
    ensures forall b | b in bands :: Rank(b) <= Rank(Worst(bands))
    ensures bands == [] ==> Worst(bands) == NoImpact
    ensures bands != [] ==> Worst(bands) in bands
  {
    if bands != [] {
      WorstBounds(bands[1..]);
      assert forall b | b in bands :: b == bands[0] || b in bands[1..];
    }
  }

  lemma {:induction false} WorstSnoc(bands: seq<Band>, b: Band)
    ensures Rank(Worst(bands + [b])) == Rank(Worse(Worst(bands), b))
  {
    if bands == [] {
      assert [] + [b] == [b] && [b][1..] == [];
    } else {
      assert (bands + [b])[1..] == bands[1..] + [b];
      WorstSnoc(bands[1..], b);
    }
  }

  /** Rank tells bands apart, so a band is determined by its place in the order. */
  lemma RankInjective(a: Band, b: Band)
    requires Rank(a) == Rank(b)
    ensures a == b
  {
  }
}
