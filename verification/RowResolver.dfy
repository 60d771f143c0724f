/** Resolving one change atom on one target: from indexes and a cache, proved equal to scanning every claim and
    exclusion and testing every path. */
module RowResolver {
  import opened Contracts
  import opened Ordering
  import opened Change
  import opened Obligations
  import opened Targeting

  /** A plug-in obligation as planned, under its ledger number. */
  datatype Claim = Claim(id: nat, obligation: Obligation)

  // The direct definition.

  predicate CoveredBy(prefixes: set<Path>, path: Path) {
    exists prefix | prefix in prefixes :: Covers(prefix, path)
  }

  function PathSet(paths: seq<Path>): set<Path> {
    set p | p in paths
  }

  predicate Claims(claim: Claim, atom: Atom, target: Target) {
    claim.obligation.atom == Some(atom.id) && Reaches(claim.obligation.target, target)
  }

  predicate Excludes(exclusion: Exclusion, atom: Atom, target: Target) {
    exclusion.atom == atom.id && Reaches(exclusion.target, target)
  }

  /** A claim or exclusion for this atom reaching this target names the path or an ancestor of it. */
  ghost predicate Addressed(path: Path, atom: Atom, target: Target, claims: seq<Claim>, exclusions: seq<Exclusion>) {
    || (exists c | c in claims :: Claims(c, atom, target) && CoveredBy(PathSet(c.obligation.paths), path))
    || (exists e | e in exclusions :: Excludes(e, atom, target) && CoveredBy(PathSet(e.paths), path))
  }

  /** The claim reaches this target and covers at least one of the atom's paths. */
  ghost predicate Contributes(claim: Claim, atom: Atom, target: Target) {
    && Claims(claim, atom, target)
    && exists p | p in atom.paths :: CoveredBy(PathSet(claim.obligation.paths), p)
  }

  predicate AscendingIds(ids: seq<nat>) {
    forall i, j | 0 <= i < j < |ids| :: ids[i] < ids[j]
  }

  ghost predicate ContributingIds(ids: seq<nat>, atom: Atom, target: Target, claims: seq<Claim>) {
    && AscendingIds(ids)
    && (forall id :: id in ids <==> exists c | c in claims :: c.id == id && Contributes(c, atom, target))
  }

  /** The paths nothing addresses, in the atom's order. */
  ghost function Unaddressed(atom: Atom, target: Target, claims: seq<Claim>, exclusions: seq<Exclusion>): seq<Path> {
    Filter(atom.paths, p => !Addressed(p, atom, target, claims, exclusions))
  }

  /** A row as the definition has it, without an index or a cache. */
  ghost predicate Resolved(row: LedgerRow, atom: Atom, target: Target, claims: seq<Claim>, exclusions: seq<Exclusion>) {
    var missing := Unaddressed(atom, target, claims, exclusions);
    && row.atom == atom.id && row.target == target
    && ContributingIds(row.obligations, atom, target, claims)
    && row.uncovered == (if !atom.complete then [[atom.attribute]] else missing)
    && row.resolution == (if !atom.complete || missing != [] then Uncovered
                          else if row.obligations != [] then Claimed else Excluded)
  }

  lemma ResolvedRowIsValid(row: LedgerRow, atom: Atom, target: Target, claims: seq<Claim>, exclusions: seq<Exclusion>)
    requires Resolved(row, atom, target, claims, exclusions)
    ensures ValidRow(row)
    ensures row.resolution != Uncovered
        <==> atom.complete && forall p | p in atom.paths :: Addressed(p, atom, target, claims, exclusions)
  {
    FilterMembers(atom.paths, p => !Addressed(p, atom, target, claims, exclusions));
    if row.resolution != Uncovered {
      forall p | p in atom.paths
        ensures Addressed(p, atom, target, claims, exclusions)
      {
        assert p !in Unaddressed(atom, target, claims, exclusions);
      }
    }
    if Unaddressed(atom, target, claims, exclusions) != [] {
      assert Unaddressed(atom, target, claims, exclusions)[0] in Unaddressed(atom, target, claims, exclusions);
    }
  }

  lemma {:induction false} AscendingUnique(s: seq<nat>, t: seq<nat>)
    requires AscendingIds(s) && AscendingIds(t)
    requires forall id :: id in s <==> id in t
    ensures s == t
    decreases |s|
  {
    if s == [] {
      assert forall k | 0 <= k < |t| :: t[k] in t;
    } else {
      assert s[0] in t && t != [];
      assert t[0] in s;
      var i :| 0 <= i < |t| && t[i] == s[0];
      var j :| 0 <= j < |s| && s[j] == t[0];
      assert s[0] <= s[j] && t[0] <= t[i];
      forall id
        ensures id in s[1..] <==> id in t[1..]
      {
        assert id in s <==> id == s[0] || id in s[1..];
        assert id in t <==> id == t[0] || id in t[1..];
      }
      AscendingUnique(s[1..], t[1..]);
    }
  }

  /** The definition determines the row. */
  lemma ResolvedUnique(a: LedgerRow, b: LedgerRow, atom: Atom, target: Target, claims: seq<Claim>,
                       exclusions: seq<Exclusion>)
    requires Resolved(a, atom, target, claims, exclusions) && Resolved(b, atom, target, claims, exclusions)
    ensures a == b
  {
    AscendingUnique(a.obligations, b.obligations);
  }

  // The indexes.

  /** One claim or exclusion to index: its atom, its target and what is looked up. */
  datatype Keyed<T> = Keyed(atom: nat, target: Target, item: T)

  function OfAtom<T>(atom: nat): Keyed<T> -> bool {
    (k: Keyed<T>) => k.atom == atom
  }

  function Entries<T>(keyed: seq<Keyed<T>>): seq<Entry<T>> {
    if keyed == [] then [] else Entries(keyed[..|keyed| - 1]) + [Entry(keyed[|keyed| - 1].target, keyed[|keyed| - 1].item)]
  }

  lemma {:induction false} EntriesMembers<T>(keyed: seq<Keyed<T>>)
    ensures forall e :: e in Entries(keyed) <==> exists k :: k in keyed && e == Entry(k.target, k.item)
  {
    if keyed != [] {
      var before := keyed[..|keyed| - 1];
      EntriesMembers(before);
      assert keyed == before + [keyed[|keyed| - 1]];
    }
  }

  /** What an index of these holds for one atom. */
  function Held<T>(keyed: seq<Keyed<T>>, atom: nat): seq<Entry<T>> {
    Entries(Filter(keyed, OfAtom(atom)))
  }

  lemma EntriesSnoc<T>(keyed: seq<Keyed<T>>, k: Keyed<T>)
    ensures Entries(keyed + [k]) == Entries(keyed) + [Entry(k.target, k.item)]
  {
    assert (keyed + [k])[..|keyed|] == keyed;
  }

  lemma HeldSnoc<T>(keyed: seq<Keyed<T>>, k: Keyed<T>, atom: nat)
    ensures Held(keyed + [k], atom) == Held(keyed, atom) + (if k.atom == atom then [Entry(k.target, k.item)] else [])
  {
    FilterSnoc(keyed, k, OfAtom(atom));
    var before := Filter(keyed, OfAtom(atom));
    if k.atom == atom {
      EntriesSnoc(before, k);
    } else {
      assert before + [] == before;
    }
  }

  ghost predicate Indexes<T>(index: map<nat, ByTarget<T>>, keyed: seq<Keyed<T>>)
    reads index.Values
  {
    && (forall a | a in index :: index[a].Valid() && index[a].entries == Held(keyed, a))
    && (forall a: nat | a !in index :: Held(keyed, a) == [])
    && (forall a, b | a in index && b in index && a != b :: index[a] != index[b])
  }

  /** `index[atom].add(target, item)`, with a new empty slot for an atom not seen before. */
  method AddKeyed<T>(index: map<nat, ByTarget<T>>, ghost keyed: seq<Keyed<T>>, k: Keyed<T>)
    returns (next: map<nat, ByTarget<T>>)
    requires Indexes(index, keyed)
    modifies index.Values
    ensures Indexes(next, keyed + [k])
    ensures forall a | a in next :: fresh(next[a]) || (a in index && next[a] == index[a])
  {
    next := index;
    if k.atom !in index {
      var slot := new ByTarget<T>();
      next := index[k.atom := slot];
    }
    next[k.atom].Add(k.target, k.item);
    forall a: nat {
      HeldSnoc(keyed, k, a);
    }
  }

  method BuildIndex<T>(keyed: seq<Keyed<T>>) returns (index: map<nat, ByTarget<T>>)
    ensures forall a | a in index :: fresh(index[a])
    ensures Indexes(index, keyed)
  {
    index := map[];
    for i := 0 to |keyed|
      invariant forall a | a in index :: fresh(index[a])
      invariant Indexes(index, keyed[..i])
    {
      Taking(keyed, i);
      index := AddKeyed(index, keyed[..i], keyed[i]);
    }
    Taken(keyed);
  }

  // The resolver.

  /** What a claim contributes to a row: its ledger number and the paths it names. */
  datatype ClaimPaths = ClaimPaths(id: nat, paths: set<Path>)

  function KeyedClaims(claims: seq<Claim>): seq<Keyed<ClaimPaths>> {
    if claims == [] then []
    else
      var c := claims[0];
      (if c.obligation.atom.Some?
       then [Keyed(c.obligation.atom.value, c.obligation.target, ClaimPaths(c.id, PathSet(c.obligation.paths)))]
       else [])
      + KeyedClaims(claims[1..])
  }

  function KeyedExclusions(exclusions: seq<Exclusion>): seq<Keyed<set<Path>>> {
    if exclusions == [] then []
    else [Keyed(exclusions[0].atom, exclusions[0].target, PathSet(exclusions[0].paths))] + KeyedExclusions(exclusions[1..])
  }

  function ClaimKey(c: Claim): Keyed<ClaimPaths>
    requires c.obligation.atom.Some?
  {
    Keyed(c.obligation.atom.value, c.obligation.target, ClaimPaths(c.id, PathSet(c.obligation.paths)))
  }

  lemma {:induction false} KeyedClaimsMembers(claims: seq<Claim>)
    ensures forall k | k in KeyedClaims(claims) :: exists c :: c in claims && c.obligation.atom.Some? && k == ClaimKey(c)
    ensures forall c | c in claims && c.obligation.atom.Some? :: ClaimKey(c) in KeyedClaims(claims)
  {
    if claims != [] {
      KeyedClaimsMembers(claims[1..]);
      assert forall c :: c in claims <==> c == claims[0] || c in claims[1..];
    }
  }

  function ExclusionKey(e: Exclusion): Keyed<set<Path>> {
    Keyed(e.atom, e.target, PathSet(e.paths))
  }

  lemma {:induction false} KeyedExclusionsMembers(exclusions: seq<Exclusion>)
    ensures forall k | k in KeyedExclusions(exclusions) :: exists e :: e in exclusions && k == ExclusionKey(e)
    ensures forall e | e in exclusions :: ExclusionKey(e) in KeyedExclusions(exclusions)
  {
    if exclusions != [] {
      KeyedExclusionsMembers(exclusions[1..]);
      assert forall e :: e in exclusions <==> e == exclusions[0] || e in exclusions[1..];
      forall k | k in KeyedExclusions(exclusions)
        ensures exists e :: e in exclusions && k == ExclusionKey(e)
      {
        assert k == ExclusionKey(exclusions[0]) || k in KeyedExclusions(exclusions[1..]);
      }
    }
  }

  /** The entries of an atom's index that reach a row. */
  function ReachingEntries<T>(keyed: seq<Keyed<T>>, atom: nat, row: Target): seq<Entry<T>> {
    Scan(Held(keyed, atom), row)
  }

  lemma ReachingMembers<T>(keyed: seq<Keyed<T>>, atom: nat, row: Target)
    ensures forall e :: e in ReachingEntries(keyed, atom, row)
              <==> Reaches(e.target, row) && Keyed(atom, e.target, e.item) in keyed
  {
    var held := Filter(keyed, OfAtom(atom));
    FilterMembers(keyed, OfAtom(atom));
    EntriesMembers(held);
    ScanMembers(Entries(held), row);
    forall e
      ensures e in ReachingEntries(keyed, atom, row) <==> Reaches(e.target, row) && Keyed(atom, e.target, e.item) in keyed
    {
      if Keyed(atom, e.target, e.item) in keyed {
        var k := Keyed(atom, e.target, e.item);
        assert k in held && e == Entry(k.target, k.item);
      }
    }
  }

  function NotCovered(prefixes: set<Path>): Path -> bool {
    (p: Path) => !CoveredBy(prefixes, p)
  }

  function ClaimPrefixes(entries: seq<Entry<ClaimPaths>>): set<Path> {
    if entries == [] then {} else entries[0].item.paths + ClaimPrefixes(entries[1..])
  }

  function ExclusionPrefixes(entries: seq<Entry<set<Path>>>): set<Path> {
    if entries == [] then {} else entries[0].item + ExclusionPrefixes(entries[1..])
  }

  lemma {:induction false} ClaimPrefixesMembers(entries: seq<Entry<ClaimPaths>>)
    ensures forall q :: q in ClaimPrefixes(entries) <==> exists e | e in entries :: q in e.item.paths
  {
    if entries != [] {
      ClaimPrefixesMembers(entries[1..]);
      assert forall e :: e in entries <==> e == entries[0] || e in entries[1..];
    }
  }

  lemma {:induction false} ExclusionPrefixesMembers(entries: seq<Entry<set<Path>>>)
    ensures forall q :: q in ExclusionPrefixes(entries) <==> exists e | e in entries :: q in e.item
  {
    if entries != [] {
      ExclusionPrefixesMembers(entries[1..]);
      assert forall e :: e in entries <==> e == entries[0] || e in entries[1..];
    }
  }

  /** Some reaching claim entry covers the path, exactly when some claim of the atom reaching the row does. */
  lemma ClaimsCover(claims: seq<Claim>, atom: Atom, target: Target, path: Path)
    ensures CoveredBy(ClaimPrefixes(ReachingEntries(KeyedClaims(claims), atom.id, target)), path)
        <==> exists c | c in claims :: Claims(c, atom, target) && CoveredBy(PathSet(c.obligation.paths), path)
  {
    var entries := ReachingEntries(KeyedClaims(claims), atom.id, target);
    ReachingMembers(KeyedClaims(claims), atom.id, target);
    ClaimPrefixesMembers(entries);
    KeyedClaimsMembers(claims);
    if CoveredBy(ClaimPrefixes(entries), path) {
      var q :| q in ClaimPrefixes(entries) && Covers(q, path);
      var e :| e in entries && q in e.item.paths;
      var c :| c in claims && c.obligation.atom.Some? && Keyed(atom.id, e.target, e.item) == ClaimKey(c);
      assert Claims(c, atom, target) && CoveredBy(PathSet(c.obligation.paths), path);
    }
    if c :| c in claims && Claims(c, atom, target) && CoveredBy(PathSet(c.obligation.paths), path) {
      var e := Entry(c.obligation.target, ClaimPaths(c.id, PathSet(c.obligation.paths)));
      assert ClaimKey(c) == Keyed(atom.id, e.target, e.item);
      assert e in entries;
    }
  }

  lemma ExclusionsCover(exclusions: seq<Exclusion>, atom: Atom, target: Target, path: Path)
    ensures CoveredBy(ExclusionPrefixes(ReachingEntries(KeyedExclusions(exclusions), atom.id, target)), path)
        <==> exists e | e in exclusions :: Excludes(e, atom, target) && CoveredBy(PathSet(e.paths), path)
  {
    var entries := ReachingEntries(KeyedExclusions(exclusions), atom.id, target);
    ReachingMembers(KeyedExclusions(exclusions), atom.id, target);
    ExclusionPrefixesMembers(entries);
    KeyedExclusionsMembers(exclusions);
    if CoveredBy(ExclusionPrefixes(entries), path) {
      var q :| q in ExclusionPrefixes(entries) && Covers(q, path);
      var e :| e in entries && q in e.item;
      var x :| x in exclusions && Keyed(atom.id, e.target, e.item) == ExclusionKey(x);
      assert Excludes(x, atom, target) && CoveredBy(PathSet(x.paths), path);
    }
    if x :| x in exclusions && Excludes(x, atom, target) && CoveredBy(PathSet(x.paths), path) {
      var e := Entry(x.target, PathSet(x.paths));
      assert ExclusionKey(x) == Keyed(atom.id, e.target, e.item);
      assert e in entries;
    }
  }

  function RowPrefixes(claims: seq<Claim>, exclusions: seq<Exclusion>, atom: nat, target: Target): set<Path> {
    ClaimPrefixes(ReachingEntries(KeyedClaims(claims), atom, target))
    + ExclusionPrefixes(ReachingEntries(KeyedExclusions(exclusions), atom, target))
  }

  /** What one prefix set leaves uncovered is what no claim or exclusion addresses. */
  lemma PrefixesAddress(claims: seq<Claim>, exclusions: seq<Exclusion>, atom: Atom, target: Target)
    ensures Filter(atom.paths, NotCovered(RowPrefixes(claims, exclusions, atom.id, target)))
         == Unaddressed(atom, target, claims, exclusions)
  {
    var one := ClaimPrefixes(ReachingEntries(KeyedClaims(claims), atom.id, target));
    var other := ExclusionPrefixes(ReachingEntries(KeyedExclusions(exclusions), atom.id, target));
    forall p | p in atom.paths
      ensures CoveredBy(one + other, p) == Addressed(p, atom, target, claims, exclusions)
    {
      ClaimsCover(claims, atom, target, p);
      ExclusionsCover(exclusions, atom, target, p);
      assert CoveredBy(one + other, p) <==> CoveredBy(one, p) || CoveredBy(other, p);
    }
    FilterAgree(atom.paths, NotCovered(one + other), p => !Addressed(p, atom, target, claims, exclusions));
  }

  // The contributing ids.

  function InsertId(id: nat, ids: seq<nat>): seq<nat> {
    if ids == [] || id < ids[0] then [id] + ids
    else if id == ids[0] then ids
    else [ids[0]] + InsertId(id, ids[1..])
  }

  predicate Below(id: nat, ids: seq<nat>) {
    forall k | 0 <= k < |ids| :: id < ids[k]
  }

  lemma {:induction false} InsertIdBelow(low: nat, id: nat, ids: seq<nat>)
    requires low < id && Below(low, ids)
    ensures Below(low, InsertId(id, ids))
  {
    if ids != [] && id > ids[0] {
      InsertIdBelow(low, id, ids[1..]);
    }
  }

  lemma {:induction false} InsertIdMembers(id: nat, ids: seq<nat>)
    ensures forall other :: other in InsertId(id, ids) <==> other == id || other in ids
  {
    if ids != [] && id > ids[0] {
      InsertIdMembers(id, ids[1..]);
    }
  }

  lemma {:induction false} InsertIdAscends(id: nat, ids: seq<nat>)
    requires AscendingIds(ids)
    ensures AscendingIds(InsertId(id, ids))
  {
    if ids != [] && id > ids[0] {
      InsertIdAscends(id, ids[1..]);
      InsertIdBelow(ids[0], id, ids[1..]);
    }
  }

  ghost predicate ContributingEntry(e: Entry<ClaimPaths>, atom: Atom) {
    exists p | p in atom.paths :: CoveredBy(e.item.paths, p)
  }

  ghost predicate ContributingFrom(ids: seq<nat>, entries: seq<Entry<ClaimPaths>>, atom: Atom) {
    && AscendingIds(ids)
    && (forall id :: id in ids <==> exists e | e in entries :: e.item.id == id && ContributingEntry(e, atom))
  }

  lemma ContributingStep(ids: seq<nat>, entries: seq<Entry<ClaimPaths>>, e: Entry<ClaimPaths>, atom: Atom)
    requires ContributingFrom(ids, entries, atom)
    ensures ContributingFrom(if Filter(atom.paths, NotCovered(e.item.paths)) != atom.paths
                             then InsertId(e.item.id, ids) else ids,
                             entries + [e], atom)
  {
    FilterKeepsAll(atom.paths, NotCovered(e.item.paths));
    InsertIdAscends(e.item.id, ids);
    InsertIdMembers(e.item.id, ids);
    assert forall other :: other in entries + [e] <==> other in entries || other == e;
  }

  lemma EntriesContribute(ids: seq<nat>, claims: seq<Claim>, atom: Atom, target: Target)
    requires ContributingFrom(ids, ReachingEntries(KeyedClaims(claims), atom.id, target), atom)
    ensures ContributingIds(ids, atom, target, claims)
  {
    var entries := ReachingEntries(KeyedClaims(claims), atom.id, target);
    ReachingMembers(KeyedClaims(claims), atom.id, target);
    KeyedClaimsMembers(claims);
    forall id
      ensures id in ids <==> exists c | c in claims :: c.id == id && Contributes(c, atom, target)
    {
      if id in ids {
        var e :| e in entries && e.item.id == id && ContributingEntry(e, atom);
        var c :| c in claims && c.obligation.atom.Some? && Keyed(atom.id, e.target, e.item) == ClaimKey(c);
        assert c.id == id && Contributes(c, atom, target);
      }
      if c :| c in claims && c.id == id && Contributes(c, atom, target) {
        var e := Entry(c.obligation.target, ClaimPaths(c.id, PathSet(c.obligation.paths)));
        assert ClaimKey(c) == Keyed(atom.id, e.target, e.item);
        assert e in entries && ContributingEntry(e, atom);
      }
    }
  }

  /** Resolves rows from claims and exclusions indexed by atom and target, caching coverage per prefix set. */
  class Resolver {
    const claims: map<nat, ByTarget<ClaimPaths>>
    const exclusions: map<nat, ByTarget<set<Path>>>
    var missing: map<(nat, set<Path>), seq<Path>>
    // What was indexed, and the atoms the resolver is asked about: ids tell them apart.
    ghost const allClaims: seq<Claim>
    ghost const allExclusions: seq<Exclusion>
    ghost const atoms: map<nat, Atom>

    ghost predicate Valid()
      reads this, claims.Values, exclusions.Values
    {
      && Indexes(claims, KeyedClaims(allClaims))
      && Indexes(exclusions, KeyedExclusions(allExclusions))
      && Cached()
    }

    /** The cache agrees with recomputation. */
    ghost predicate Cached()
      reads this
    {
      forall key | key in missing :: key.0 in atoms && missing[key] == Filter(atoms[key.0].paths, NotCovered(key.1))
    }

    constructor (allClaims: seq<Claim>, allExclusions: seq<Exclusion>, ghost atoms: map<nat, Atom>)
      ensures Valid() && this.allClaims == allClaims && this.allExclusions == allExclusions && this.atoms == atoms
      ensures forall a | a in claims :: fresh(claims[a])
      ensures forall a | a in exclusions :: fresh(exclusions[a])
    {
      var claims := BuildIndex(KeyedClaims(allClaims));
      var exclusions := BuildIndex(KeyedExclusions(allExclusions));
      this.claims, this.exclusions, this.missing := claims, exclusions, map[];
      this.allClaims, this.allExclusions, this.atoms := allClaims, allExclusions, atoms;
    }

    method Missing(atom: Atom, prefixes: set<Path>) returns (paths: seq<Path>)
      requires Valid() && atom.id in atoms && atoms[atom.id] == atom
      modifies this`missing
      ensures Valid() && paths == Filter(atom.paths, NotCovered(prefixes))
    {
      var key := (atom.id, prefixes);
      if key !in missing {
        missing := missing[key := Filter(atom.paths, NotCovered(prefixes))];
      }
      paths := missing[key];
    }

    method Contributing(atom: Atom, reaching: seq<Entry<ClaimPaths>>) returns (ids: seq<nat>)
      requires Valid() && atom.id in atoms && atoms[atom.id] == atom
      modifies this`missing
      ensures Valid() && ContributingFrom(ids, reaching, atom)
    {
      ids := [];
      for i := 0 to |reaching|
        invariant Valid() && ContributingFrom(ids, reaching[..i], atom)
      {
        ContributingStep(ids, reaching[..i], reaching[i], atom);
        Taking(reaching, i);
        var uncovered := Missing(atom, reaching[i].item.paths);
        if uncovered != atom.paths {
          ids := InsertId(reaching[i].item.id, ids);
        }
      }
      Taken(reaching);
    }

    /** One atom on one target: the row the direct definition has. */
    method Resolve(atom: Atom, target: Target) returns (row: LedgerRow)
      requires Valid() && atom.id in atoms && atoms[atom.id] == atom
      modifies this`missing
      ensures Valid() && Resolved(row, atom, target, allClaims, allExclusions)
    {
      var claiming := if atom.id in claims then claims[atom.id].Reaching(target) else [];
      var excluding := if atom.id in exclusions then exclusions[atom.id].Reaching(target) else [];
      assert claiming == ReachingEntries(KeyedClaims(allClaims), atom.id, target);
      assert excluding == ReachingEntries(KeyedExclusions(allExclusions), atom.id, target);
      var contributing := Contributing(atom, claiming);
      var prefixes := ClaimPrefixes(claiming) + ExclusionPrefixes(excluding);
      var missing := Missing(atom, prefixes);
      PrefixesAddress(allClaims, allExclusions, atom, target);
      EntriesContribute(contributing, allClaims, atom, target);
      if !atom.complete || missing != [] {
        var uncovered := if atom.complete then missing else [[atom.attribute]];
        return LedgerRow(atom.id, target, Uncovered, contributing, uncovered);
      }
      return LedgerRow(atom.id, target, if contributing != [] then Claimed else Excluded, contributing, []);
    }
  }
}
