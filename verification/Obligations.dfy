/** What coverage needs resolved: targets, obligations, exclusions, plans, statuses and ledger rows, each with the
    invariant its frozen contract validates. */
module Obligations {
  import opened Contracts
  import opened Ordering
  import opened Change

  datatype Target = Target(device: Option<Name>, site: Option<Name>, port: Option<Name>, wlan: Option<Name>)

  /** A device with an audit-linked deployment trigger. */
  datatype ExpectedDevice = ExpectedDevice(mac: Name, site: Name)

  datatype Kind = AnchorKind | DeploymentKind | MonitoringKind | RuleKind | InputKind

  datatype Role = Precondition | Observation

  datatype EmptyPolicy = NotExercisedPolicy | IncompletePolicy

  const CORE: Name := Name("core")

  datatype Obligation = Obligation(
    id: nat,
    owner: Name,
    atom: Option<nat>,
    paths: seq<Path>,
    role: Role,
    kind: Kind,
    target: Target,
    metric: Option<Name>,
    policy: Option<EmptyPolicy>)

  /** The role follows the kind, and the kind decides what the obligation names. */
  predicate ValidObligation(o: Obligation) {
    && (o.kind in {AnchorKind, DeploymentKind} ==> o.owner == CORE && o.role == Precondition)
    && (o.kind == InputKind ==> o.owner == CORE && o.role == Observation && o.atom == None && o.paths == [])
    && (o.kind in {MonitoringKind, RuleKind} ==> o.role == Observation && o.atom.Some? && o.paths != [])
    && (o.kind == MonitoringKind <==> o.policy.Some?)
    && (o.kind == MonitoringKind ==> o.metric.Some?)
  }

  datatype Exclusion = Exclusion(owner: Name, atom: nat, paths: seq<Path>, target: Target)

  datatype RulePlan = RulePlan(
    obligations: seq<Obligation>,
    exclusions: seq<Exclusion>,
    incidentTypes: set<Name>,
    findingKinds: set<Name>)

  /** A rule plan holds rule and monitoring observations only, under ids of its own. */
  predicate ValidPlan(plan: RulePlan) {
    && (forall o | o in plan.obligations :: ValidObligation(o) && o.kind in {MonitoringKind, RuleKind})
    && (forall i, j | 0 <= i < j < |plan.obligations| :: plan.obligations[i].id != plan.obligations[j].id)
    && (forall e | e in plan.exclusions :: e.paths != [])
  }

  /** One entry of the mapping from plug-in ids to plans. */
  datatype PluginPlan = PluginPlan(plugin: Name, plan: RulePlan)

  datatype StatusValue = Satisfied | NotExercised | Unsatisfied

  /** Why a status is unsatisfied; the sentences themselves are not modelled. */
  datatype Reason =
    | ChangeTimeUnknown
    | NoStatusReported
    | NoPluginAddressed(atom: nat, paths: seq<Path>)
    | NoExpectedDevice(atoms: seq<nat>)
    | Stated(text: Name)
    | NoSession
    | SharedSession
    | SessionActive
    | NoDeviceMatches
    | BaselineState
    | LatestState
    | NotComparable
    | NoDataEither
    | DataDisappeared
    | NoBaselineData
    | FailingDevices(first: Name, more: nat)
    | NoTrigger
    | NoOutcome
    | LatestFailed
    | LatestReverted
    | ConflictingOutcomes
    | AmbiguousTriggers
    | ReceiptTimeOnly

  datatype Status = Status(value: StatusValue, reason: Option<Reason>)

  /** An unsatisfied status needs a reason, and only an unsatisfied status carries one. */
  predicate ValidStatus(s: Status) {
    s.value == Unsatisfied <==> s.reason.Some?
  }

  datatype Resolution = Claimed | Excluded | Uncovered

  datatype LedgerRow = LedgerRow(
    atom: nat,
    target: Target,
    resolution: Resolution,
    obligations: seq<nat>,
    uncovered: seq<Path>)

  predicate ValidRow(row: LedgerRow) {
    && (row.resolution != Uncovered ==> row.uncovered == [])
    && (row.resolution == Claimed ==> row.obligations != [])
    && (row.resolution == Excluded ==> row.obligations == [])
  }

  /** The one targeting rule: whether an obligation or exclusion target reaches a row's device. */
  predicate Reaches(target: Target, row: Target) {
    if target.device.Some? then target.device == row.device && (target.site == None || target.site == row.site)
    else target.site.Some? && target.site == row.site
  }
}
