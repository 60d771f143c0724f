/** Untrusted JSON in, bounded redacted JSON out: tenant filtering of rows and the structural part of redaction.

    Strings are abstract names; rewriting the secrets inside them, and cutting long keys and strings, is not modelled. */
module Payloads {
  import opened Contracts
  import opened Ordering

  const MAX_DEPTH: nat := 12
  const MAX_FIELDS: nat := 100
  const MAX_ITEMS: nat := 50

  datatype Json = Null | Scalar(text: Name) | Text(text: Name) | Arr(items: seq<Json>) | Obj(fields: seq<Field>)

  datatype Field = Field(key: Name, value: Json)

  const ORG_ID: Name := Name("org_id")
  const SITE_ID: Name := Name("site_id")
  const ENCRYPTED: Name := Name("$encrypted")
  const REDACTED: Json := Text(Name("[redacted]"))
  const DEPTH_OMITTED: Json := Text(Name("[depth omitted]"))

  /** The organization and sites one attempt may read. */
  datatype Authority = Authority(orgId: Name, sites: set<Name>, orgWide: bool)

  /** A field that names another organization, or a site this investigation may not read. */
  predicate ForeignField(f: Field, a: Authority) {
    && f.value.Text? && f.value.text.text != ""
    && ((f.key == ORG_ID && f.value.text != a.orgId)
        || (f.key == SITE_ID && !a.orgWide && f.value.text !in a.sites))
  }

  predicate NamesForeign(fields: seq<Field>, a: Authority) {
    exists i | 0 <= i < |fields| :: ForeignField(fields[i], a)
  }

  /** The walk for a foreign identity, which stops below the redaction depth. */
  predicate Foreign(v: Json, depth: nat, a: Authority)
    decreases v
  {
    depth <= MAX_DEPTH
    && match v
       case Obj(fields) => NamesForeign(fields, a) || exists i | 0 <= i < |fields| :: Foreign(fields[i].value, depth + 1, a)
       case Arr(items) => exists i | 0 <= i < |items| :: Foreign(items[i], depth + 1, a)
       case _ => false
  }

  /** No mapping at any depth names another organization or an unauthorized site. */
  ghost predicate Clean(v: Json, a: Authority) {
    match v
    case Obj(fields) => !NamesForeign(fields, a) && forall i | 0 <= i < |fields| :: Clean(fields[i].value, a)
    case Arr(items) => forall i | 0 <= i < |items| :: Clean(items[i], a)
    case _ => true
  }

  // Rows outside the authority.

  /** A row: a mapping in a list that belongs to another organization or site. */
  predicate ForeignRow(item: Json, a: Authority) {
    item.Obj? && Foreign(item, 0, a)
  }

  datatype Filtered = Filtered(value: Json, omitted: nat)

  datatype FilteredItems = FilteredItems(items: seq<Json>, omitted: nat)

  datatype FilteredFields = FilteredFields(fields: seq<Field>, omitted: nat)

  /** The result without the rows outside the authority, and how many were left out. */
  function WithinAuthority(raw: Json, depth: nat, a: Authority): Filtered
    requires depth <= MAX_DEPTH + 1
    decreases 2 * (MAX_DEPTH + 1 - depth), 0
  {
    if depth > MAX_DEPTH then Filtered(raw, 0)
    else
      match raw
      case Arr(items) =>
        var kept := KeepItems(items, depth + 1, a);
        Filtered(Arr(kept.items), kept.omitted)
      case Obj(fields) =>
        var kept := KeepFields(fields, depth + 1, a);
        Filtered(Obj(kept.fields), kept.omitted)
      case _ => Filtered(raw, 0)
  }

  function KeepItems(items: seq<Json>, depth: nat, a: Authority): FilteredItems
    requires depth <= MAX_DEPTH + 1
    decreases 2 * (MAX_DEPTH + 1 - depth) + 1, |items|
  {
    if items == [] then FilteredItems([], 0)
    else
      var rest := KeepItems(items[1..], depth, a);
      if ForeignRow(items[0], a) then FilteredItems(rest.items, rest.omitted + 1)
      else
        var first := WithinAuthority(items[0], depth, a);
        FilteredItems([first.value] + rest.items, first.omitted + rest.omitted)
  }

  function KeepFields(fields: seq<Field>, depth: nat, a: Authority): FilteredFields
    requires depth <= MAX_DEPTH + 1
    decreases 2 * (MAX_DEPTH + 1 - depth) + 1, |fields|
  {
    if fields == [] then FilteredFields([], 0)
    else
      var first := WithinAuthority(fields[0].value, depth, a);
      var rest := KeepFields(fields[1..], depth, a);
      FilteredFields([Field(fields[0].key, first.value)] + rest.fields, first.omitted + rest.omitted)
  }

  /** Nothing foreign passes through unchanged: no row is left out and no value altered. */
  lemma {:induction false} CleanPassesUnchanged(raw: Json, depth: nat, a: Authority)
    requires depth <= MAX_DEPTH + 1 && Clean(raw, a)
    ensures WithinAuthority(raw, depth, a) == Filtered(raw, 0)
    decreases 2 * (MAX_DEPTH + 1 - depth), 0
  {
    if depth <= MAX_DEPTH {
      match raw {
        case Arr(items) => CleanItemsUnchanged(items, depth + 1, a);
        case Obj(fields) => CleanFieldsUnchanged(fields, depth + 1, a);
        case _ =>
      }
    }
  }

  lemma {:induction false} CleanItemsUnchanged(items: seq<Json>, depth: nat, a: Authority)
    requires depth <= MAX_DEPTH + 1 && forall i | 0 <= i < |items| :: Clean(items[i], a)
    ensures KeepItems(items, depth, a) == FilteredItems(items, 0)
    decreases 2 * (MAX_DEPTH + 1 - depth) + 1, |items|
  {
    if items != [] {
      CleanIsNotForeign(items[0], 0, a);
      CleanPassesUnchanged(items[0], depth, a);
      CleanItemsUnchanged(items[1..], depth, a);
      assert [items[0]] + items[1..] == items;
    }
  }

  lemma {:induction false} CleanFieldsUnchanged(fields: seq<Field>, depth: nat, a: Authority)
    requires depth <= MAX_DEPTH + 1 && forall i | 0 <= i < |fields| :: Clean(fields[i].value, a)
    ensures KeepFields(fields, depth, a) == FilteredFields(fields, 0)
    decreases 2 * (MAX_DEPTH + 1 - depth) + 1, |fields|
  {
    if fields != [] {
      CleanPassesUnchanged(fields[0].value, depth, a);
      CleanFieldsUnchanged(fields[1..], depth, a);
      assert [fields[0]] + fields[1..] == fields;
    }
  }

  lemma {:induction false} CleanIsNotForeign(v: Json, depth: nat, a: Authority)
    requires Clean(v, a)
    ensures !Foreign(v, depth, a)
    decreases v
  {
    match v {
      case Obj(fields) =>
        forall i | 0 <= i < |fields|
          ensures !Foreign(fields[i].value, depth + 1, a)
        {
          CleanIsNotForeign(fields[i].value, depth + 1, a);
        }
      case Arr(items) =>
        forall i | 0 <= i < |items|
          ensures !Foreign(items[i], depth + 1, a)
        {
          CleanIsNotForeign(items[i], depth + 1, a);
        }
      case _ =>
    }
  }

  // What is left holds no foreign row, and filtering again changes nothing.

  /** Filtering never makes anything foreign. */
  lemma {:induction false} FilteringAddsNothingForeign(v: Json, depth: nat, walk: nat, a: Authority)
    requires depth <= MAX_DEPTH + 1 && !Foreign(v, walk, a)
    ensures !Foreign(WithinAuthority(v, depth, a).value, walk, a)
    decreases 2 * (MAX_DEPTH + 1 - depth), 0
  {
    if depth <= MAX_DEPTH && walk <= MAX_DEPTH {
      match v {
        case Arr(items) => KeptItemsNotForeign(items, depth + 1, walk + 1, a);
        case Obj(fields) => KeptFieldsNotForeign(fields, depth + 1, walk + 1, a);
        case _ =>
      }
    }
  }

  lemma {:induction false} KeptItemsNotForeign(items: seq<Json>, depth: nat, walk: nat, a: Authority)
    requires depth <= MAX_DEPTH + 1 && forall i | 0 <= i < |items| :: !Foreign(items[i], walk, a)
    ensures forall i | 0 <= i < |KeepItems(items, depth, a).items| :: !Foreign(KeepItems(items, depth, a).items[i], walk, a)
    decreases 2 * (MAX_DEPTH + 1 - depth) + 1, |items|
  {
    if items != [] {
      KeptItemsNotForeign(items[1..], depth, walk, a);
      if !ForeignRow(items[0], a) {
        FilteringAddsNothingForeign(items[0], depth, walk, a);
      }
    }
  }

  lemma {:induction false} KeptFieldsNotForeign(fields: seq<Field>, depth: nat, walk: nat, a: Authority)
    requires depth <= MAX_DEPTH + 1 && !NamesForeign(fields, a)
    requires forall i | 0 <= i < |fields| :: !Foreign(fields[i].value, walk, a)
    ensures var kept := KeepFields(fields, depth, a).fields;
            !NamesForeign(kept, a) && forall i | 0 <= i < |kept| :: !Foreign(kept[i].value, walk, a)
    decreases 2 * (MAX_DEPTH + 1 - depth) + 1, |fields|
  {
    if fields != [] {
      assert !ForeignField(fields[0], a);
      assert forall i | 0 <= i < |fields[1..]| :: fields[1..][i] == fields[i + 1] && !ForeignField(fields[i + 1], a);
      KeptFieldsNotForeign(fields[1..], depth, walk, a);
      FilteringAddsNothingForeign(fields[0].value, depth, walk, a);
      FilteringKeepsScalars(fields[0].value, depth, a);
    }
  }

  lemma FilteringKeepsScalars(v: Json, depth: nat, a: Authority)
    requires depth <= MAX_DEPTH + 1
    ensures WithinAuthority(v, depth, a).value.Text? <==> v.Text?
    ensures v.Text? ==> WithinAuthority(v, depth, a).value == v
    ensures WithinAuthority(v, depth, a).value.Obj? <==> v.Obj?
  {
  }

  /** Filtering what was filtered leaves out nothing more and changes nothing. */
  lemma {:induction false} FilteringTwice(raw: Json, depth: nat, a: Authority)
    requires depth <= MAX_DEPTH + 1
    ensures var once := WithinAuthority(raw, depth, a).value; WithinAuthority(once, depth, a) == Filtered(once, 0)
    decreases 2 * (MAX_DEPTH + 1 - depth), 0
  {
    if depth <= MAX_DEPTH {
      match raw {
        case Arr(items) => KeepItemsTwice(items, depth + 1, a);
        case Obj(fields) => KeepFieldsTwice(fields, depth + 1, a);
        case _ =>
      }
    }
  }

  lemma {:induction false} KeepItemsTwice(items: seq<Json>, depth: nat, a: Authority)
    requires depth <= MAX_DEPTH + 1
    ensures var once := KeepItems(items, depth, a).items; KeepItems(once, depth, a) == FilteredItems(once, 0)
    decreases 2 * (MAX_DEPTH + 1 - depth) + 1, |items|
  {
    if items != [] {
      KeepItemsTwice(items[1..], depth, a);
      if !ForeignRow(items[0], a) {
        var first := WithinAuthority(items[0], depth, a).value;
        var rest := KeepItems(items[1..], depth, a).items;
        FilteringTwice(items[0], depth, a);
        FilteringKeepsScalars(items[0], depth, a);
        if first.Obj? {
          FilteringAddsNothingForeign(items[0], depth, 0, a);
        }
        assert !ForeignRow(first, a);
        assert ([first] + rest)[1..] == rest;
      }
    }
  }

  lemma {:induction false} KeepFieldsTwice(fields: seq<Field>, depth: nat, a: Authority)
    requires depth <= MAX_DEPTH + 1
    ensures var once := KeepFields(fields, depth, a).fields; KeepFields(once, depth, a) == FilteredFields(once, 0)
    decreases 2 * (MAX_DEPTH + 1 - depth) + 1, |fields|
  {
    if fields != [] {
      KeepFieldsTwice(fields[1..], depth, a);
      var first := Field(fields[0].key, WithinAuthority(fields[0].value, depth, a).value);
      var rest := KeepFields(fields[1..], depth, a).fields;
      FilteringTwice(fields[0].value, depth, a);
      assert ([first] + rest)[1..] == rest;
    }
  }

  function WithinRow(a: Authority): Json -> bool {
    (item: Json) => !ForeignRow(item, a)
  }

  /** A foreign row costs that row alone: the rows kept of a list are exactly its others, each filtered by itself, in
      order, and every row left out is counted. */
  lemma {:induction false} OtherRowsStay(items: seq<Json>, depth: nat, a: Authority)
    requires depth <= MAX_DEPTH + 1
    ensures var others := Filter(items, WithinRow(a));
            var kept := KeepItems(items, depth, a);
            && |kept.items| == |others|
            && (forall i | 0 <= i < |others| :: kept.items[i] == WithinAuthority(others[i], depth, a).value)
            && kept.omitted >= |items| - |others|
  {
    if items != [] {
      OtherRowsStay(items[1..], depth, a);
      FilterMembers(items[1..], WithinRow(a));
      assert Filter(items, WithinRow(a))
          == (if WithinRow(a)(items[0]) then [items[0]] else []) + Filter(items[1..], WithinRow(a));
    }
  }

  // Redaction, structurally.

  /** Secrets gone, width cut while `bounded`, and everything below the depth guard replaced by a marker. */
  function Redact(v: Json, depth: nat, bounded: bool, secret: Name -> bool): Json
    decreases v
  {
    if depth > MAX_DEPTH then DEPTH_OMITTED
    else
      match v
      case Obj(fields) =>
        if exists i | 0 <= i < |fields| :: fields[i].key == ENCRYPTED then REDACTED
        else
          var n := if bounded && |fields| > MAX_FIELDS then MAX_FIELDS else |fields|;
          Obj(seq(n, i requires 0 <= i < n =>
                Field(fields[i].key,
                      if secret(fields[i].key) then REDACTED else Redact(fields[i].value, depth + 1, bounded, secret))))
      case Arr(items) =>
        var n := if bounded && |items| > MAX_ITEMS then MAX_ITEMS else |items|;
        Arr(seq(n, i requires 0 <= i < n => Redact(items[i], depth + 1, bounded, secret)))
      case _ => v
  }

  /** Which names are cut: keys and strings past their lengths. */
  datatype Long = Long(key: Name -> bool, text: Name -> bool)

  /** Whether redaction would leave anything out; a redacted secret is not an omission, a cut row is. */
  predicate Omits(v: Json, depth: nat, secret: Name -> bool, long: Long)
    decreases v
  {
    || depth > MAX_DEPTH
    || match v
       case Obj(fields) =>
         || |fields| > MAX_FIELDS
         || exists i | 0 <= i < |fields| ::
              && !secret(fields[i].key) && (forall j | 0 <= j < |fields| :: fields[j].key != ENCRYPTED)
              && (long.key(fields[i].key) || Omits(fields[i].value, depth + 1, secret, long))
       case Arr(items) => |items| > MAX_ITEMS || exists i | 0 <= i < |items| :: Omits(items[i], depth + 1, secret, long)
       case Text(text) => long.text(text)
       case _ => false
  }

  /** A marker redaction leaves in place of a value names nobody. */
  predicate Marker(v: Json) {
    v == REDACTED || v == DEPTH_OMITTED
  }

  /** No mapping at any depth names another organization or an unauthorized site. */
  ghost predicate CleanStored(v: Json, a: Authority) {
    match v
    case Obj(fields) =>
      forall i | 0 <= i < |fields| ::
        (ForeignField(fields[i], a) ==> Marker(fields[i].value)) && CleanStored(fields[i].value, a)
    case Arr(items) => forall i | 0 <= i < |items| :: CleanStored(items[i], a)
    case _ => true
  }

  /** What the walk down to the redaction depth found nothing foreign in, redaction leaves clean at every depth. */
  lemma {:induction false} RedactedIsClean(v: Json, depth: nat, bounded: bool, secret: Name -> bool, a: Authority)
    requires !Foreign(v, depth, a)
    ensures CleanStored(Redact(v, depth, bounded, secret), a)
    decreases v
  {
    if depth <= MAX_DEPTH {
      match v {
        case Obj(fields) =>
          var out := Redact(v, depth, bounded, secret);
          if out.Obj? {
            forall i | 0 <= i < |out.fields|
              ensures (ForeignField(out.fields[i], a) ==> Marker(out.fields[i].value)) && CleanStored(out.fields[i].value, a)
            {
              assert !ForeignField(fields[i], a);
              RedactedIsClean(fields[i].value, depth + 1, bounded, secret, a);
              RedactedText(fields[i].value, depth + 1, bounded, secret);
            }
          }
        case Arr(items) =>
          var out := Redact(v, depth, bounded, secret);
          forall i | 0 <= i < |out.items|
            ensures CleanStored(out.items[i], a)
          {
            RedactedIsClean(items[i], depth + 1, bounded, secret, a);
          }
        case _ =>
      }
    }
  }

  /** Redaction turns a value into text only by leaving text alone or by a marker. */
  lemma RedactedText(v: Json, depth: nat, bounded: bool, secret: Name -> bool)
    ensures var out := Redact(v, depth, bounded, secret);
            out.Text? ==> out == v || out == REDACTED || out == DEPTH_OMITTED
  {
  }
}
