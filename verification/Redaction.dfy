/** What redaction leaves: no secret at any depth, nothing below the depth guard, and everything else as it was. */
module Redaction {
  import opened Contracts
  import opened Ordering
  import opened Payloads
  import opened Reader

  // No secret is left.

  /** The value keeps no secret: under a secret key there is only the marker, no mapping is an encrypted one, and nothing
      holds anything below the depth guard. */
  ghost predicate SecretFree(v: Json, depth: nat, secret: Name -> bool) {
    match v
    case Obj(fields) =>
      depth <= MAX_DEPTH
      && forall i | 0 <= i < |fields| ::
           fields[i].key != ENCRYPTED && (secret(fields[i].key) ==> fields[i].value == REDACTED)
           && SecretFree(fields[i].value, depth + 1, secret)
    case Arr(items) => depth <= MAX_DEPTH && forall i | 0 <= i < |items| :: SecretFree(items[i], depth + 1, secret)
    case _ => true
  }

  /** Whatever came in, no secret comes out. */
  lemma {:induction false} RedactedIsSecretFree(v: Json, depth: nat, bounded: bool, secret: Name -> bool)
    ensures SecretFree(Redact(v, depth, bounded, secret), depth, secret)
    decreases v
  {
    if depth <= MAX_DEPTH {
      match v {
        case Obj(fields) =>
          forall i | 0 <= i < |fields| {
            RedactedIsSecretFree(fields[i].value, depth + 1, bounded, secret);
          }
        case Arr(items) =>
          forall i | 0 <= i < |items| {
            RedactedIsSecretFree(items[i], depth + 1, bounded, secret);
          }
        case _ =>
      }
    }
  }

  /** A payload carries a result that is no object under a name of its own, one level deeper. */
  ghost predicate PayloadSecretFree(payload: Json, secret: Name -> bool) {
    || SecretFree(payload, 0, secret)
    || (payload.Obj? && |payload.fields| == 1 && payload.fields[0].key == RESULT && !payload.fields[0].value.Obj?
        && SecretFree(payload.fields[0].value, 0, secret))
  }

  /** Every list a digest shows is secret free. */
  ghost predicate StoredSecretFree(s: Stored, secret: Name -> bool) {
    match s
    case Full(payload) => PayloadSecretFree(payload, secret)
    case Digest(lists) =>
      forall i | 0 <= i < |lists| ::
        if lists[i].key == RESULT then SecretFree(lists[i].value, 0, secret) || SecretFree(lists[i].value, 1, secret)
        else !secret(lists[i].key) && SecretFree(lists[i].value, 1, secret)
    case Counts => true
  }

  predicate ListedFrom(fields: seq<Field>, key: Name) {
    exists i | 0 <= i < |fields| :: fields[i].key == key && fields[i].value.Arr?
  }

  lemma {:induction false} ListsSecretFree(fields: seq<Field>, shown: nat, depth: nat, secret: Name -> bool)
    requires forall i | 0 <= i < |fields| :: SecretFree(fields[i].value, depth, secret)
    ensures forall i | 0 <= i < |Lists(fields, shown)| :: SecretFree(Lists(fields, shown)[i].value, depth, secret)
    ensures forall i | 0 <= i < |Lists(fields, shown)| :: ListedFrom(fields, Lists(fields, shown)[i].key)
  {
    if fields != [] {
      ListsSecretFree(fields[1..], shown, depth, secret);
    }
  }

  lemma CandidatesSecretFree(v: Json, allowFull: bool, secret: Name -> bool)
    requires SecretFree(v, 0, secret)
    ensures forall s | s in Candidates(PayloadOf(v), allowFull) :: StoredSecretFree(s, secret)
  {
    var payload := PayloadOf(v);
    var depth := if v.Obj? then 1 else 0;
    ListsSecretFree(payload.fields, 10, depth, secret);
    ListsSecretFree(payload.fields, 5, depth, secret);
    ListsSecretFree(payload.fields, 2, depth, secret);
  }

  /** Neither the stored form of a result nor the full copy a plug-in judges from keeps a secret. */
  lemma RecordedIsSecretFree(raw: Json, a: Authority, hasMore: bool, long: Long, keep: bool, budget: nat,
                             size: Stored -> nat, secret: Name -> bool)
    ensures var r := Record(raw, a, hasMore, long, keep, budget, size, secret);
            r.RecordedRead? ==>
              StoredSecretFree(r.stored, secret) && (r.full.Some? ==> PayloadSecretFree(r.full.value, secret))
  {
    var kept := WithinAuthority(raw, 0, a);
    RedactedIsSecretFree(kept.value, 0, true, secret);
    RedactedIsSecretFree(kept.value, 0, false, secret);
    CandidatesSecretFree(Redact(kept.value, 0, true, secret), kept.omitted == 0 && !Omits(raw, 0, secret, long), secret);
  }

  // Nothing else is lost.

  /** The value at a path of positions, if there is one. */
  function At(v: Json, path: seq<nat>): Option<Json> {
    if path == [] then Some(v)
    else
      match v
      case Obj(fields) => if path[0] < |fields| then At(fields[path[0]].value, path[1..]) else None
      case Arr(items) => if path[0] < |items| then At(items[path[0]], path[1..]) else None
      case _ => None
  }

  /** Nothing on the way to the path is secret or encrypted, nor past the width kept. */
  predicate Open(v: Json, path: seq<nat>, bounded: bool, secret: Name -> bool) {
    path == []
    || match v
       case Obj(fields) =>
         && path[0] < |fields| && (bounded ==> path[0] < MAX_FIELDS)
         && (forall i | 0 <= i < |fields| :: fields[i].key != ENCRYPTED)
         && !secret(fields[path[0]].key) && Open(fields[path[0]].value, path[1..], bounded, secret)
       case Arr(items) =>
         && path[0] < |items| && (bounded ==> path[0] < MAX_ITEMS)
         && Open(items[path[0]], path[1..], bounded, secret)
       case _ => false
  }

  predicate Plain(v: Json) {
    v.Null? || v.Scalar? || v.Text?
  }

  /** What is neither secret, encrypted, past the width kept nor below the depth guard is left at its place as it was. */
  lemma {:induction false} RedactionKeepsTheRest(v: Json, depth: nat, path: seq<nat>, bounded: bool, secret: Name -> bool)
    requires depth + |path| <= MAX_DEPTH && Open(v, path, bounded, secret)
    ensures At(v, path).Some? && At(Redact(v, depth, bounded, secret), path).Some?
    ensures Plain(At(v, path).value) ==> At(Redact(v, depth, bounded, secret), path) == At(v, path)
    ensures SameShape(At(v, path).value, At(Redact(v, depth, bounded, secret), path).value, bounded)
  {
    if path != [] {
      match v {
        case Obj(fields) => RedactionKeepsTheRest(fields[path[0]].value, depth + 1, path[1..], bounded, secret);
        case Arr(items) => RedactionKeepsTheRest(items[path[0]], depth + 1, path[1..], bounded, secret);
      }
    }
  }

  /** A mapping keeps its keys, and a list its length, up to the width kept; only an encrypted mapping is a marker. */
  predicate SameShape(v: Json, out: Json, bounded: bool) {
    match v
    case Obj(fields) =>
      if exists i | 0 <= i < |fields| :: fields[i].key == ENCRYPTED then out == REDACTED
      else
        && out.Obj? && |out.fields| == (if bounded && MAX_FIELDS < |fields| then MAX_FIELDS else |fields|)
        && forall i | 0 <= i < |out.fields| :: out.fields[i].key == fields[i].key
    case Arr(items) => out.Arr? && |out.items| == if bounded && MAX_ITEMS < |items| then MAX_ITEMS else |items|
    case _ => out == v
  }

  /** Redacting what redaction left changes nothing. */
  lemma {:induction false} RedactingTwice(v: Json, depth: nat, bounded: bool, secret: Name -> bool)
    ensures var once := Redact(v, depth, bounded, secret); Redact(once, depth, bounded, secret) == once
    decreases v
  {
    if depth <= MAX_DEPTH {
      match v {
        case Obj(fields) =>
          forall i | 0 <= i < |fields| {
            RedactingTwice(fields[i].value, depth + 1, bounded, secret);
          }
        case Arr(items) =>
          forall i | 0 <= i < |items| {
            RedactingTwice(items[i], depth + 1, bounded, secret);
          }
        case _ =>
      }
    }
  }

  // What is stored as the full result is the whole of it.

  lemma {:induction false} NothingOmitted(raw: Json, depth: nat, a: Authority)
    requires depth <= MAX_DEPTH + 1 && WithinAuthority(raw, depth, a).omitted == 0
    ensures WithinAuthority(raw, depth, a).value == raw
    decreases 2 * (MAX_DEPTH + 1 - depth), 0
  {
    if depth <= MAX_DEPTH {
      match raw {
        case Arr(items) => NoItemOmitted(items, depth + 1, a);
        case Obj(fields) => NoFieldOmitted(fields, depth + 1, a);
        case _ =>
      }
    }
  }

  lemma {:induction false} NoItemOmitted(items: seq<Json>, depth: nat, a: Authority)
    requires depth <= MAX_DEPTH + 1 && KeepItems(items, depth, a).omitted == 0
    ensures KeepItems(items, depth, a).items == items
    decreases 2 * (MAX_DEPTH + 1 - depth) + 1, |items|
  {
    if items != [] {
      NothingOmitted(items[0], depth, a);
      NoItemOmitted(items[1..], depth, a);
      assert [items[0]] + items[1..] == items;
    }
  }

  lemma {:induction false} NoFieldOmitted(fields: seq<Field>, depth: nat, a: Authority)
    requires depth <= MAX_DEPTH + 1 && KeepFields(fields, depth, a).omitted == 0
    ensures KeepFields(fields, depth, a).fields == fields
    decreases 2 * (MAX_DEPTH + 1 - depth) + 1, |fields|
  {
    if fields != [] {
      NothingOmitted(fields[0].value, depth, a);
      NoFieldOmitted(fields[1..], depth, a);
      assert [fields[0]] + fields[1..] == fields;
    }
  }

  /** What omits nothing is redacted the same with and without bounds. */
  lemma {:induction false} UnboundedIsTheSame(v: Json, depth: nat, secret: Name -> bool, long: Long)
    requires !Omits(v, depth, secret, long)
    ensures Redact(v, depth, true, secret) == Redact(v, depth, false, secret)
    decreases v
  {
    match v {
      case Obj(fields) =>
        if forall j | 0 <= j < |fields| :: fields[j].key != ENCRYPTED {
          forall i | 0 <= i < |fields| && !secret(fields[i].key) {
            UnboundedIsTheSame(fields[i].value, depth + 1, secret, long);
          }
        }
      case Arr(items) =>
        forall i | 0 <= i < |items| {
          UnboundedIsTheSame(items[i], depth + 1, secret, long);
        }
      case _ =>
    }
  }

  /** And no place in it that is neither secret nor encrypted is below the depth guard, past a width, or cut. */
  lemma {:induction false} WholeIsOpen(v: Json, depth: nat, path: seq<nat>, secret: Name -> bool, long: Long)
    requires !Omits(v, depth, secret, long) && Open(v, path, false, secret)
    ensures depth + |path| <= MAX_DEPTH && Open(v, path, true, secret)
    ensures At(v, path).Some? && (At(v, path).value.Text? ==> !long.text(At(v, path).value.text))
  {
    if path != [] {
      match v {
        case Obj(fields) => WholeIsOpen(fields[path[0]].value, depth + 1, path[1..], secret, long);
        case Arr(items) => WholeIsOpen(items[path[0]], depth + 1, path[1..], secret, long);
      }
    }
  }

  /** What is stored as the full result is the whole of it but its secrets: everything open in what was read is at its
      place, and the plug-in's copy is the same. */
  lemma FullIsWhole(raw: Json, a: Authority, hasMore: bool, long: Long, keep: bool, budget: nat, size: Stored -> nat,
                    secret: Name -> bool, path: seq<nat>)
    requires Open(raw, path, false, secret)
    ensures var r := Record(raw, a, hasMore, long, keep, budget, size, secret);
            r.RecordedRead? && r.stored.Full? ==>
              && r.stored.payload == PayloadOf(Redact(raw, 0, false, secret))
              && At(raw, path).Some? && At(Redact(raw, 0, false, secret), path).Some?
              && SameShape(At(raw, path).value, At(Redact(raw, 0, false, secret), path).value, false)
              && (r.full.Some? ==> r.full == Some(r.stored.payload))
  {
    var r := Record(raw, a, hasMore, long, keep, budget, size, secret);
    if r.RecordedRead? && r.stored.Full? {
      FullWasAllowed(raw, a, hasMore, long, keep, budget, size, secret);
      NothingOmitted(raw, 0, a);
      UnboundedIsTheSame(raw, 0, secret, long);
      WholeIsOpen(raw, 0, path, secret, long);
      RedactionKeepsTheRest(raw, 0, path, false, secret);
    }
  }

  lemma FullWasAllowed(raw: Json, a: Authority, hasMore: bool, long: Long, keep: bool, budget: nat, size: Stored -> nat,
                       secret: Name -> bool)
    ensures var r := Record(raw, a, hasMore, long, keep, budget, size, secret);
            r.RecordedRead? && r.stored.Full? ==>
              WithinAuthority(raw, 0, a).omitted == 0 && !Omits(raw, 0, secret, long)
              && r.stored == Full(PayloadOf(Redact(WithinAuthority(raw, 0, a).value, 0, true, secret)))
  {
    var payload := PayloadOf(Redact(WithinAuthority(raw, 0, a).value, 0, true, secret));
    forall allowed: bool, s | s in Candidates(payload, allowed) && s.Full?
      ensures allowed && s == Full(payload)
    {
    }
  }

  /** A result of which nothing was left out and nothing would be cut is stored as it is whenever it fits. */
  lemma FittingIsFull(raw: Json, a: Authority, hasMore: bool, long: Long, keep: bool, budget: nat, size: Stored -> nat,
                      secret: Name -> bool)
    requires Clean(raw, a) && !Omits(raw, 0, secret, long)
    requires size(Full(PayloadOf(Redact(raw, 0, true, secret)))) <= budget
    ensures var r := Record(raw, a, hasMore, long, keep, budget, size, secret);
            && r.RecordedRead? && r.stored == Full(PayloadOf(Redact(raw, 0, true, secret)))
            && (r.full.Some? <==> keep)
  {
    CleanPassesUnchanged(raw, 0, a);
    CleanIsNotForeign(raw, 0, a);
    assert Candidates(PayloadOf(Redact(raw, 0, true, secret)), true)[0] == Full(PayloadOf(Redact(raw, 0, true, secret)));
  }

  /** A row at the path: a mapping in a list. */
  predicate RowAt(v: Json, path: seq<nat>) {
    var list := At(v, path);
    list.Some? && list.value.Arr? && exists i | 0 <= i < |list.value.items| :: list.value.items[i].Obj?
  }

  lemma {:induction false} RowsHeld(v: Json, depth: nat)
    ensures HoldsRows(v, depth) <==> exists path :: depth + |path| <= MAX_DEPTH && RowAt(v, path)
    decreases v
  {
    if HoldsRows(v, depth) {
      var path := RowFound(v, depth);
    }
    if path :| depth + |path| <= MAX_DEPTH && RowAt(v, path) {
      RowSeen(v, depth, path);
    }
  }

  lemma {:induction false} RowFound(v: Json, depth: nat) returns (path: seq<nat>)
    requires HoldsRows(v, depth)
    ensures depth + |path| <= MAX_DEPTH && RowAt(v, path)
    decreases v
  {
    path := [];
    match v {
      case Arr(items) =>
        if i: nat :| i < |items| && !(exists j | 0 <= j < |items| :: items[j].Obj?) && HoldsRows(items[i], depth + 1) {
          var rest := RowFound(items[i], depth + 1);
          path := [i] + rest;
        }
      case Obj(fields) =>
        var i: nat :| i < |fields| && HoldsRows(fields[i].value, depth + 1);
        var rest := RowFound(fields[i].value, depth + 1);
        path := [i] + rest;
    }
  }

  lemma {:induction false} RowSeen(v: Json, depth: nat, path: seq<nat>)
    requires depth + |path| <= MAX_DEPTH && RowAt(v, path)
    ensures HoldsRows(v, depth)
  {
    if path != [] {
      match v {
        case Arr(items) => RowSeen(items[path[0]], depth + 1, path[1..]);
        case Obj(fields) => RowSeen(fields[path[0]].value, depth + 1, path[1..]);
      }
    }
  }

  /** A result that lost rows is refused exactly when none is left in it, or what is left is itself foreign. */
  lemma LostRowsRefusedExactly(raw: Json, a: Authority, hasMore: bool, long: Long, keep: bool, budget: nat,
                               size: Stored -> nat, secret: Name -> bool)
    requires WithinAuthority(raw, 0, a).omitted > 0
    ensures var kept := WithinAuthority(raw, 0, a).value;
            Record(raw, a, hasMore, long, keep, budget, size, secret).FailedRead?
            <==> Foreign(kept, 0, a) || !exists path :: |path| <= MAX_DEPTH && RowAt(kept, path)
  {
    var kept := WithinAuthority(raw, 0, a).value;
    RowsHeld(kept, 0);
    assert HoldsRows(kept, 0) <==> exists path :: |path| <= MAX_DEPTH && RowAt(kept, path);
  }

  // The bounds.

  /** A list read at any of the thirteen depths redaction keeps loses exactly its foreign rows. */
  lemma RowsAreWeighedAtEveryDepth(items: seq<Json>, depth: nat, a: Authority)
    requires depth <= 12
    ensures var kept := WithinAuthority(Arr(items), depth, a);
            var others := Filter(items, WithinRow(a));
            && kept.value.Arr? && |kept.value.items| == |others| && kept.omitted >= |items| - |others|
            && forall i | 0 <= i < |others| :: kept.value.items[i] == WithinAuthority(others[i], depth + 1, a).value
  {
    OtherRowsStay(items, depth + 1, a);
  }

  /** Of what is stored, a mapping has at most a hundred fields, a list at most fifty items, and nothing is nested more than
      thirteen levels deep. */
  ghost predicate Bounded(v: Json, depth: nat) {
    match v
    case Obj(fields) =>
      depth <= 12 && |fields| <= 100 && forall i | 0 <= i < |fields| :: Bounded(fields[i].value, depth + 1)
    case Arr(items) => depth <= 12 && |items| <= 50 && forall i | 0 <= i < |items| :: Bounded(items[i], depth + 1)
    case _ => true
  }

  lemma {:induction false} RedactedIsBounded(v: Json, depth: nat, secret: Name -> bool)
    ensures Bounded(Redact(v, depth, true, secret), depth)
    decreases v
  {
    if depth <= MAX_DEPTH {
      match v {
        case Obj(fields) =>
          forall i | 0 <= i < |fields| {
            RedactedIsBounded(fields[i].value, depth + 1, secret);
          }
        case Arr(items) =>
          forall i | 0 <= i < |items| {
            RedactedIsBounded(items[i], depth + 1, secret);
          }
        case _ =>
      }
    }
  }

  /** What names a tenant: an organization that is not ours, or a site, unless the whole organization may be read. */
  lemma ForeignExactly(f: Field, a: Authority)
    ensures ForeignField(f, a)
       <==> exists text: Name :: f.value == Text(text) && |text.text| > 0
                                 && ((f.key == ORG_ID && text != a.orgId)
                                     || (f.key == SITE_ID && !a.orgWide && text !in a.sites))
  {
    if ForeignField(f, a) {
      assert f.value == Text(f.value.text);
    }
  }

  // What counts as left out.

  /** Something at this place is left out: it is below the depth guard or past a width, or a key or a text of it is cut. */
  predicate CutThere(v: Json, depth: nat, secret: Name -> bool, long: Long) {
    || depth > 12
    || match v
       case Obj(fields) =>
         || |fields| > 100
         || ((forall j | 0 <= j < |fields| :: fields[j].key != ENCRYPTED)
             && exists i | 0 <= i < |fields| :: !secret(fields[i].key) && long.key(fields[i].key))
       case Arr(items) => |items| > 50
       case Text(text) => long.text(text)
       case _ => false
  }

  /** A redacted secret is no omission: whatever is left out is at a place that neither a secret nor an encrypted mapping
      hides. */
  lemma {:induction false} OmissionHasCause(v: Json, depth: nat, secret: Name -> bool, long: Long) returns (path: seq<nat>)
    requires Omits(v, depth, secret, long)
    ensures Open(v, path, false, secret) && At(v, path).Some?
    ensures CutThere(At(v, path).value, depth + |path|, secret, long)
    decreases v
  {
    path := [];
    if !CutThere(v, depth, secret, long) {
      match v {
        case Obj(fields) =>
          var i: nat :| i < |fields| && !secret(fields[i].key) && Omits(fields[i].value, depth + 1, secret, long);
          var rest := OmissionHasCause(fields[i].value, depth + 1, secret, long);
          path := [i] + rest;
        case Arr(items) =>
          var i: nat :| i < |items| && Omits(items[i], depth + 1, secret, long);
          var rest := OmissionHasCause(items[i], depth + 1, secret, long);
          path := [i] + rest;
      }
    }
  }

  /** The plug-in's copy is not cut: everything open in what was kept is at its place in it, however wide. */
  lemma PluginCopyIsUncut(raw: Json, a: Authority, hasMore: bool, long: Long, budget: nat, size: Stored -> nat,
                          secret: Name -> bool, path: seq<nat>)
    requires var kept := WithinAuthority(raw, 0, a).value; Open(kept, path, false, secret) && |path| <= 12
    ensures var r, kept := Record(raw, a, hasMore, long, true, budget, size, secret), WithinAuthority(raw, 0, a).value;
            r.RecordedRead? ==>
              exists copy :: r.full == Some(PayloadOf(copy)) && At(kept, path).Some? && At(copy, path).Some?
                             && SameShape(At(kept, path).value, At(copy, path).value, false)
  {
    var kept := WithinAuthority(raw, 0, a).value;
    RedactionKeepsTheRest(kept, 0, path, false, secret);
    assert At(Redact(kept, 0, false, secret), path).Some?;
  }
}
