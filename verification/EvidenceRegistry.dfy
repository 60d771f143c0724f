/** One attempt's evidence registry: ids assigned at reservation, and byte budgets per source family. */
module EvidenceRegistry {
  import opened Contracts

  datatype Family = MonitoringFamily | DeploymentFamily | RuleFamily | McpFamily

  datatype EvidenceSource = MonitoringRead | DeploymentRead | RuleRead(plugin: string) | McpRead(tool: string)

  datatype RecordError = NotReserved | AlreadyRecorded | AboveItemBudget | AboveFamilyBudget

  /** One evidence item: its number, its source and its serialized size. */
  datatype Item = Item(id: nat, source: EvidenceSource, size: nat)

  const KB: nat := 1_000

  function FamilyOf(source: EvidenceSource): Family {
    match source
    case MonitoringRead => MonitoringFamily
    case DeploymentRead => DeploymentFamily
    case RuleRead(_) => RuleFamily
    case McpRead(_) => McpFamily
  }

  /** The budget of one item, where its family has one. */
  function ItemBudget(family: Family): Option<nat> {
    if family == MonitoringFamily then None else Some(4 * KB)
  }

  function FamilyBudget(family: Family): nat {
    match family
    case MonitoringFamily => 18 * KB
    case DeploymentFamily => 4 * KB
    case RuleFamily => MAX_RULE_READS * 4 * KB
    case McpFamily => MAX_MCP_CALLS * 4 * KB
  }

  /** Bytes a family's recorded items take. */
  function BytesOf(items: seq<Item>, family: Family): nat {
    if items == [] then 0
    else BytesOf(items[..|items| - 1], family)
         + (if FamilyOf(items[|items| - 1].source) == family then items[|items| - 1].size else 0)
  }

  /** The recorded items with ids 1 to `n`, in id order. */
  function InIdOrder(recorded: map<nat, Item>, n: nat): seq<Item> {
    if n == 0 then [] else InIdOrder(recorded, n - 1) + (if n in recorded then [recorded[n]] else [])
  }

  /** Ids ascend from 1 to at most `n`, and every item is the one recorded under its id. */
  predicate Listed(out: seq<Item>, recorded: map<nat, Item>, n: nat) {
    && (forall i, j | 0 <= i < j < |out| :: out[i].id < out[j].id)
    && (forall i | 0 <= i < |out| :: 1 <= out[i].id <= n && out[i].id in recorded && recorded[out[i].id] == out[i])
  }

  lemma ListedAppend(out: seq<Item>, recorded: map<nat, Item>, n: nat)
    requires n > 0 && Listed(out, recorded, n - 1) && n in recorded && recorded[n].id == n
    ensures Listed(out + [recorded[n]], recorded, n)
  {
  }

  /** A run stores its evidence in id order without duplicates, and every recorded item is in it. */
  lemma {:induction false} InIdOrderAscends(recorded: map<nat, Item>, n: nat)
    requires forall id | id in recorded :: recorded[id].id == id
    ensures Listed(InIdOrder(recorded, n), recorded, n)
    ensures forall id | id in recorded && 1 <= id <= n :: recorded[id] in InIdOrder(recorded, n)
  {
    if n > 0 {
      InIdOrderAscends(recorded, n - 1);
      if n in recorded {
        ListedAppend(InIdOrder(recorded, n - 1), recorded, n);
      }
    }
  }

  lemma BytesOfAppend(items: seq<Item>, item: Item, family: Family)
    ensures BytesOf(items + [item], family)
         == BytesOf(items, family) + (if FamilyOf(item.source) == family then item.size else 0)
  {
    assert (items + [item])[..|items|] == items;
  }

  /** What is recorded was reserved for its source, is within its item budget, and is the history. */
  ghost predicate Held(recorded: map<nat, Item>, reserved: map<nat, EvidenceSource>, history: seq<Item>) {
    && |history| == |recorded|
    && (forall id | id in recorded ::
          id in reserved && recorded[id].id == id && recorded[id].source == reserved[id] && recorded[id] in history)
    && (forall item | item in history :: item.id in recorded && recorded[item.id] == item && WithinItem(item))
  }

  predicate WithinItem(item: Item) {
    var budget := ItemBudget(FamilyOf(item.source));
    budget.Some? ==> item.size <= budget.value
  }

  predicate WithinFamily(items: seq<Item>, family: Family) {
    BytesOf(items, family) <= FamilyBudget(family)
  }

  lemma HeldAppend(recorded: map<nat, Item>, reserved: map<nat, EvidenceSource>, history: seq<Item>, item: Item)
    requires Held(recorded, reserved, history) && WithinItem(item)
    requires item.id !in recorded && item.id in reserved && reserved[item.id] == item.source
    ensures Held(recorded[item.id := item], reserved, history + [item])
  {
  }

  function UsedBytes(bytes: map<Family, nat>, family: Family): nat {
    if family in bytes then bytes[family] else 0
  }

  /** The byte counts are those of the recorded items, and each family is within its budget. */
  ghost predicate Accounted(bytes: map<Family, nat>, history: seq<Item>) {
    forall f: Family :: BytesOf(history, f) == UsedBytes(bytes, f) && WithinFamily(history, f)
  }

  lemma AccountedAppend(bytes: map<Family, nat>, history: seq<Item>, item: Item)
    requires Accounted(bytes, history)
    requires UsedBytes(bytes, FamilyOf(item.source)) + item.size <= FamilyBudget(FamilyOf(item.source))
    ensures Accounted(bytes[FamilyOf(item.source) := UsedBytes(bytes, FamilyOf(item.source)) + item.size],
                      history + [item])
  {
    forall f: Family {
      BytesOfAppend(history, item, f);
    }
  }

  /** Ids are reserved from 1 upwards without a hole. */
  ghost predicate Contiguous(reserved: map<nat, EvidenceSource>) {
    forall id :: id in reserved <==> 1 <= id <= |reserved|
  }

  /** One attempt's evidence: ids are assigned at reservation, in order, and never renumbered. */
  class Registry {
    var reserved: map<nat, EvidenceSource>
    var recorded: map<nat, Item>
    var bytes: map<Family, nat>
    // The recorded items in the order they were recorded.
    ghost var history: seq<Item>

    ghost predicate Valid()
      reads this
    {
      Contiguous(reserved) && Held(recorded, reserved, history) && Accounted(bytes, history)
    }

    constructor ()
      ensures Valid() && reserved == map[] && recorded == map[] && history == []
    {
      reserved, recorded, bytes, history := map[], map[], map[], [];
    }

    /** Assign the next id to a read before it starts. */
    method Reserve(source: EvidenceSource) returns (id: nat)
      requires Valid()
      modifies this
      ensures Valid() && recorded == old(recorded) && history == old(history)
      ensures id !in old(reserved) && id == |old(reserved)| + 1
      ensures reserved == old(reserved)[id := source]
    {
      id := |reserved| + 1;
      reserved := reserved[id := source];
    }

    /** Store evidence under its reserved id, within the item and aggregate budgets of its source. */
    method Record(item: Item) returns (error: Option<RecordError>)
      requires Valid()
      modifies this
      ensures Valid() && reserved == old(reserved)
      ensures error.None? <==>
                && item.id in old(reserved) && old(reserved)[item.id] == item.source && item.id !in old(recorded)
                && (FamilyOf(item.source) != MonitoringFamily ==> item.size <= 4 * KB)
                && BytesOf(old(history), FamilyOf(item.source)) + item.size <= FamilyBudget(FamilyOf(item.source))
      ensures error.None? ==> recorded == old(recorded)[item.id := item] && history == old(history) + [item]
      ensures error.Some? ==> recorded == old(recorded) && history == old(history)
    {
      if item.id !in reserved || reserved[item.id] != item.source {
        return Some(NotReserved);
      }
      if item.id in recorded {
        return Some(AlreadyRecorded);
      }
      var family := FamilyOf(item.source);
      if ItemBudget(family).Some? && item.size > ItemBudget(family).value {
        return Some(AboveItemBudget);
      }
      if UsedBytes(bytes, family) + item.size > FamilyBudget(family) {
        return Some(AboveFamilyBudget);
      }
      AccountedAppend(bytes, history, item);
      HeldAppend(recorded, reserved, history, item);
      bytes := bytes[family := UsedBytes(bytes, family) + item.size];
      recorded := recorded[item.id := item];
      history := history + [item];
      return None;
    }

    /** Recorded evidence in id order, as a run stores it. */
    function Evidence(): (out: seq<Item>)
      requires Valid()
      reads this
      ensures forall i, j | 0 <= i < j < |out| :: out[i].id < out[j].id
      ensures forall item :: item in out <==> item.id in recorded && recorded[item.id] == item
    {
      InIdOrderAscends(recorded, |reserved|);
      InIdOrder(recorded, |reserved|)
    }
  }

  /** The budgets in bytes: what monitoring, deployment, the eight rule reads and the seven MCP calls may take in all, and
      four kilobytes for one item of any of them but monitoring. */
  lemma BudgetsAre(items: seq<Item>, item: Item)
    ensures WithinFamily(items, MonitoringFamily) <==> BytesOf(items, MonitoringFamily) <= 18_000
    ensures WithinFamily(items, DeploymentFamily) <==> BytesOf(items, DeploymentFamily) <= 4_000
    ensures WithinFamily(items, RuleFamily) <==> BytesOf(items, RuleFamily) <= 8 * 4_000
    ensures WithinFamily(items, McpFamily) <==> BytesOf(items, McpFamily) <= 7 * 4_000
    ensures WithinItem(item) <==> item.source == MonitoringRead || item.size <= 4_000
  {
  }

  /** The bytes a kind of read has taken. */
  function BytesRead(items: seq<Item>, of: EvidenceSource -> bool): nat {
    if items == [] then 0 else (if of(items[0].source) then items[0].size else 0) + BytesRead(items[1..], of)
  }

  /** A family's bytes are those its own reads took. */
  lemma {:induction false} FamiliesTake(items: seq<Item>)
    ensures BytesOf(items, MonitoringFamily) == BytesRead(items, (s: EvidenceSource) => s == MonitoringRead)
    ensures BytesOf(items, DeploymentFamily) == BytesRead(items, (s: EvidenceSource) => s == DeploymentRead)
    ensures BytesOf(items, RuleFamily) == BytesRead(items, (s: EvidenceSource) => s.RuleRead?)
    ensures BytesOf(items, McpFamily) == BytesRead(items, (s: EvidenceSource) => s.McpRead?)
  {
    if items != [] {
      var before, last := items[..|items| - 1], items[|items| - 1];
      FamiliesTake(before);
      assert items == before + [last];
      BytesReadSnoc(before, last, (s: EvidenceSource) => s == MonitoringRead);
      BytesReadSnoc(before, last, (s: EvidenceSource) => s == DeploymentRead);
      BytesReadSnoc(before, last, (s: EvidenceSource) => s.RuleRead?);
      BytesReadSnoc(before, last, (s: EvidenceSource) => s.McpRead?);
    }
  }

  lemma {:induction false} BytesReadSnoc(items: seq<Item>, item: Item, of: EvidenceSource -> bool)
    ensures BytesRead(items + [item], of) == BytesRead(items, of) + (if of(item.source) then item.size else 0)
  {
    if items == [] {
      assert [] + [item] == [item] && [item][1..] == [];
    } else {
      assert (items + [item])[1..] == items[1..] + [item];
      BytesReadSnoc(items[1..], item, of);
    }
  }
}
