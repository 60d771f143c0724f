/** One attempt's reads: call budgets and the result cache, and what of a result may be stored as evidence. */
module Reader {
  import opened Contracts
  import opened Ordering
  import opened Payloads

  // What is stored of a result.

  const RESULT: Name := Name("result")

  /** A result that is not an object is carried under `result`. */
  function PayloadOf(v: Json): Json {
    if v.Obj? then v else Obj([Field(RESULT, v)])
  }

  /** Whether any list in the result still holds a row. */
  predicate HoldsRows(v: Json, depth: nat)
    decreases v
  {
    depth <= MAX_DEPTH
    && match v
       case Arr(items) => exists i | 0 <= i < |items| :: items[i].Obj? || HoldsRows(items[i], depth + 1)
       case Obj(fields) => exists i | 0 <= i < |fields| :: HoldsRows(fields[i].value, depth + 1)
       case _ => false
  }

  /** The stored forms, largest first: the payload, the first rows of its lists, and counts alone. A digest's own
      header of sizes, counts and type names is not part of the model. */
  datatype Stored = Full(payload: Json) | Digest(lists: seq<Field>) | Counts

  /** The lists of a payload, each cut to its first rows. */
  function Lists(fields: seq<Field>, shown: nat): seq<Field> {
    if fields == [] then []
    else
      var v := fields[0].value;
      (if v.Arr? then [Field(fields[0].key, Arr(if |v.items| > shown then v.items[..shown] else v.items))] else [])
      + Lists(fields[1..], shown)
  }

  /** `shrink`: ever smaller candidates, ending at counts. */
  function Candidates(payload: Json, allowFull: bool): seq<Stored>
    requires payload.Obj?
  {
    (if allowFull then [Full(payload)] else [])
    + [Digest(Lists(payload.fields, 10)), Digest(Lists(payload.fields, 5)), Digest(Lists(payload.fields, 2)), Counts, Counts]
  }

  ghost predicate StoredClean(s: Stored, a: Authority) {
    match s
    case Full(payload) => CleanStored(payload, a)
    case Digest(lists) => forall i | 0 <= i < |lists| :: CleanStored(lists[i].value, a)
    case Counts => true
  }

  lemma {:induction false} ListsClean(fields: seq<Field>, shown: nat, a: Authority)
    requires forall i | 0 <= i < |fields| :: CleanStored(fields[i].value, a)
    ensures forall i | 0 <= i < |Lists(fields, shown)| :: CleanStored(Lists(fields, shown)[i].value, a)
  {
    if fields != [] {
      ListsClean(fields[1..], shown, a);
    }
  }

  lemma CandidatesClean(v: Json, allowFull: bool, a: Authority)
    requires CleanStored(v, a)
    ensures forall s | s in Candidates(PayloadOf(v), allowFull) :: StoredClean(s, a)
  {
    var payload := PayloadOf(v);
    assert CleanStored(payload, a);
    ListsClean(payload.fields, 10, a);
    ListsClean(payload.fields, 5, a);
    ListsClean(payload.fields, 2, a);
  }

  datatype Collection = CompleteCollection | PartialCollection

  datatype Recording = FailedRead | RecordedRead(collection: Collection, stored: Stored, full: Option<Json>)

  /** The first candidate within the budget, or the last one. */
  function Choose(candidates: seq<Stored>, budget: nat, size: Stored -> nat): (s: Stored)
    requires candidates != []
    ensures s in candidates
  {
    if |candidates| == 1 || size(candidates[0]) <= budget then candidates[0] else Choose(candidates[1..], budget, size)
  }

  /** What is stored is the largest form that fits: every larger one exceeds the budget. */
  lemma {:induction false} ChosenIsLargest(candidates: seq<Stored>, budget: nat, size: Stored -> nat) returns (k: nat)
    requires candidates != []
    ensures k < |candidates| && Choose(candidates, budget, size) == candidates[k]
    ensures forall j | 0 <= j < k :: size(candidates[j]) > budget
    ensures size(candidates[k]) <= budget || k == |candidates| - 1
  {
    if |candidates| == 1 || size(candidates[0]) <= budget {
      k := 0;
    } else {
      var rest := ChosenIsLargest(candidates[1..], budget, size);
      k := rest + 1;
    }
  }

  /** Keep what this investigation may see, redact it, and bound it into the largest form that fits. */
  function Record(raw: Json, a: Authority, hasMore: bool, long: Long, keep: bool, budget: nat, size: Stored -> nat,
                  secret: Name -> bool): Recording
  {
    var filtered := WithinAuthority(raw, 0, a);
    if Foreign(filtered.value, 0, a) then FailedRead
    else if filtered.omitted > 0 && !HoldsRows(filtered.value, 0) then FailedRead
    else
      var redacted := Redact(filtered.value, 0, true, secret);
      var candidates := Candidates(PayloadOf(redacted), filtered.omitted == 0 && !Omits(raw, 0, secret, long));
      RecordedRead(if filtered.omitted > 0 || hasMore then PartialCollection else CompleteCollection,
                   Choose(candidates, budget, size),
                   if keep then Some(PayloadOf(Redact(filtered.value, 0, false, secret))) else None)
  }

  /** Evidence that is not an error keeps no mapping, at any depth that survives redaction, naming another organization
      or a site outside the authority; nor does the full result a plug-in judges from. */
  lemma StoredEvidenceIsOurs(raw: Json, a: Authority, hasMore: bool, long: Long, keep: bool, budget: nat,
                             size: Stored -> nat, secret: Name -> bool)
    ensures var r := Record(raw, a, hasMore, long, keep, budget, size, secret);
            r.RecordedRead? ==> StoredClean(r.stored, a) && (r.full.Some? ==> CleanStored(r.full.value, a))
  {
    var filtered := WithinAuthority(raw, 0, a);
    var r := Record(raw, a, hasMore, long, keep, budget, size, secret);
    if r.RecordedRead? {
      RedactedIsClean(filtered.value, 0, true, secret, a);
      RedactedIsClean(filtered.value, 0, false, secret, a);
      CandidatesClean(Redact(filtered.value, 0, true, secret), filtered.omitted == 0 && !Omits(raw, 0, secret, long), a);
      assert CleanStored(PayloadOf(Redact(filtered.value, 0, false, secret)), a);
    }
  }

  /** A result that names nothing foreign is never refused, loses no row, and is complete unless it says it has more. */
  lemma CleanResultIsKept(raw: Json, a: Authority, hasMore: bool, long: Long, keep: bool, budget: nat,
                          size: Stored -> nat, secret: Name -> bool)
    requires Clean(raw, a)
    ensures var r := Record(raw, a, hasMore, long, keep, budget, size, secret);
            && r.RecordedRead?
            && (r.collection == PartialCollection <==> hasMore)
            && r.stored in Candidates(PayloadOf(Redact(raw, 0, true, secret)), !Omits(raw, 0, secret, long))
  {
    CleanPassesUnchanged(raw, 0, a);
    CleanIsNotForeign(raw, 0, a);
  }

  /** A row left out is never hidden: the evidence is then partial and never claims to be the full result. */
  lemma OmittedRowsShow(raw: Json, a: Authority, hasMore: bool, long: Long, keep: bool, budget: nat,
                        size: Stored -> nat, secret: Name -> bool)
    requires WithinAuthority(raw, 0, a).omitted > 0
    ensures var r := Record(raw, a, hasMore, long, keep, budget, size, secret);
            r.RecordedRead? ==> r.collection == PartialCollection && !r.stored.Full?
  {
    var r := Record(raw, a, hasMore, long, keep, budget, size, secret);
    if r.RecordedRead? {
      var payload := PayloadOf(Redact(WithinAuthority(raw, 0, a).value, 0, true, secret));
      assert forall s | s in Candidates(payload, false) :: !s.Full?;
    }
  }

  // Budgets and the cache.

  /** What a transport made of one call. */
  datatype Answer = TransportFailed | ToolFailed | Answered(recording: Recording)

  datatype Call = Cached(id: nat) | DeadlinePassed | BudgetSpent | Made(id: nat, recording: Recording)

  class Reader {
    var mcpCalls: nat
    var ruleReads: nat
    var pluginReads: map<Name, nat>
    var cache: map<Name, nat>
    var reserved: nat
    const allowances: map<Name, nat>
    // What each evidence id recorded.
    ghost var recorded: map<nat, Recording>

    ghost predicate Valid()
      reads this
    {
      && mcpCalls <= MAX_MCP_CALLS && ruleReads <= MAX_RULE_READS
      && (forall plugin | plugin in pluginReads ::
            plugin in allowances && pluginReads[plugin] <= allowances[plugin])
      && (forall id | id in recorded :: 1 <= id <= reserved)
      && (forall key | key in cache :: cache[key] in recorded && recorded[cache[key]].RecordedRead?)
    }

    constructor (allowances: map<Name, nat>)
      ensures Valid() && mcpCalls == 0 && ruleReads == 0 && pluginReads == map[] && cache == map[]
      ensures recorded == map[] && this.allowances == allowances
    {
      mcpCalls, ruleReads, pluginReads, cache, reserved := 0, 0, map[], map[], 0;
      this.allowances := allowances;
      recorded := map[];
    }

    /** The recording a call leaves: a transport or tool failure is error evidence. */
    function Outcome(answer: Answer): Recording {
      if answer.Answered? then answer.recording else FailedRead
    }

    /** One MCP call: an identical call that succeeded is answered from the cache and spends nothing; a failed one is
        never cached; and no call starts after the deadline or beyond the budget. */
    method McpCall(key: Name, deadlinePassed: bool, answer: Answer) returns (r: Call)
      requires Valid()
      modifies this
      ensures Valid() && ruleReads == old(ruleReads) && pluginReads == old(pluginReads)
      ensures r.Cached? <==> key in old(cache)
      ensures r.Cached? ==> r.id == old(cache)[key]
      ensures r.DeadlinePassed? <==> key !in old(cache) && deadlinePassed
      ensures r.BudgetSpent? <==> key !in old(cache) && !deadlinePassed && old(mcpCalls) == MAX_MCP_CALLS
      ensures !r.Made? ==> mcpCalls == old(mcpCalls) && cache == old(cache) && recorded == old(recorded)
                           && reserved == old(reserved)
      ensures r.Made? ==> mcpCalls == old(mcpCalls) + 1 && r.id == old(reserved) + 1 == reserved
                          && r.recording == Outcome(answer) && recorded == old(recorded)[r.id := r.recording]
                          && cache == if r.recording.RecordedRead? then old(cache)[key := r.id] else old(cache)
    {
      if key in cache {
        return Cached(cache[key]);
      }
      if deadlinePassed {
        return DeadlinePassed;
      }
      if mcpCalls >= MAX_MCP_CALLS {
        return BudgetSpent;
      }
      mcpCalls := mcpCalls + 1;
      reserved := reserved + 1;
      var recording := Outcome(answer);
      recorded := recorded[reserved := recording];
      if recording.RecordedRead? {
        cache := cache[key := reserved];
      }
      return Made(reserved, recording);
    }

    function ReadsOf(plugin: Name): nat
      reads this
    {
      if plugin in pluginReads then pluginReads[plugin] else 0
    }

    /** One rule read, charged to its plug-in's allowance and the attempt's. */
    method RuleRead(plugin: Name, deadlinePassed: bool, answer: Answer) returns (r: Call)
      requires Valid()
      modifies this
      ensures Valid() && mcpCalls == old(mcpCalls) && cache == old(cache) && !r.Cached?
      ensures r.DeadlinePassed? <==> deadlinePassed
      ensures r.Made? <==> !deadlinePassed && plugin in allowances && old(ReadsOf(plugin)) < allowances[plugin]
                           && old(ruleReads) < MAX_RULE_READS
      ensures !r.Made? ==> ruleReads == old(ruleReads) && pluginReads == old(pluginReads) && recorded == old(recorded)
                           && reserved == old(reserved)
      ensures r.Made? ==> r.id == old(reserved) + 1 == reserved
      ensures r.Made? ==> ruleReads == old(ruleReads) + 1 && pluginReads == old(pluginReads)[plugin := old(ReadsOf(plugin)) + 1]
                          && recorded == old(recorded)[r.id := r.recording] && r.recording == Outcome(answer)
    {
      if deadlinePassed {
        return DeadlinePassed;
      }
      if plugin !in allowances || ReadsOf(plugin) >= allowances[plugin] || ruleReads >= MAX_RULE_READS {
        return BudgetSpent;
      }
      ruleReads := ruleReads + 1;
      pluginReads := pluginReads[plugin := ReadsOf(plugin) + 1];
      reserved := reserved + 1;
      recorded := recorded[reserved := Outcome(answer)];
      return Made(reserved, Outcome(answer));
    }
  }

  // The stored forms.

  /** The lists of these fields, each cut to its first rows. */
  ghost predicate ListsOf(lists: seq<Field>, fields: seq<Field>, shown: nat) {
    forall f :: f in lists
      <==> exists g :: g in fields && g.value.Arr? && f.key == g.key && f.value.Arr? && f.value.items <= g.value.items
                       && |f.value.items| == if |g.value.items| < shown then |g.value.items| else shown
  }

  lemma {:induction false} ListsExactly(fields: seq<Field>, shown: nat)
    ensures ListsOf(Lists(fields, shown), fields, shown)
  {
    if fields != [] {
      ListsExactly(fields[1..], shown);
      var rest := Lists(fields[1..], shown);
      assert forall g :: g in fields <==> g == fields[0] || g in fields[1..];
      forall f
        ensures f in Lists(fields, shown)
           <==> exists g :: g in fields && g.value.Arr? && f.key == g.key && f.value.Arr? && f.value.items <= g.value.items
                            && |f.value.items| == if |g.value.items| < shown then |g.value.items| else shown
      {
        assert f in Lists(fields, shown) <==> f in rest || (fields[0].value.Arr? && f == Lists(fields, shown)[0]);
      }
    }
  }

  /** A result is stored whole, or as the first ten, five or two rows of its lists, or as counts: ever less of it. */
  lemma CandidatesExactly(payload: Json, allowFull: bool)
    requires payload.Obj?
    ensures var forms := Candidates(payload, allowFull);
            var at := if allowFull then 1 else 0;
            && |forms| == 5 + at && (allowFull ==> forms[0] == Full(payload))
            && forms[at].Digest? && ListsOf(forms[at].lists, payload.fields, 10)
            && forms[at + 1].Digest? && ListsOf(forms[at + 1].lists, payload.fields, 5)
            && forms[at + 2].Digest? && ListsOf(forms[at + 2].lists, payload.fields, 2)
            && forms[at + 3] == forms[at + 4] == Counts
  {
    ListsExactly(payload.fields, 10);
    ListsExactly(payload.fields, 5);
    ListsExactly(payload.fields, 2);
  }

  /** An attempt makes at most seven MCP calls and eight rule reads. */
  lemma CallsBounded(r: Reader)
    requires r.Valid()
    ensures r.mcpCalls <= 7 && r.ruleReads <= 8
  {
  }
}
