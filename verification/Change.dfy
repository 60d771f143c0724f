/** The change model: which paths of which attributes an audit changed, as atoms `A<n>` carrying paths only.

    The diff walker's result for each object is an input: the paths it found, whether it found them all, and the
    top-level fields that differ. Masked display values are not modelled. */
module Change {
  import opened Contracts
  import opened Ordering

  type Path = seq<Name>

  const MAX_IDENTIFIER_CHARS: nat := 128

  /** Whether `prefix` names `path` or an ancestor of it, comparing whole segments. */
  predicate Covers(prefix: Path, path: Path) {
    |prefix| <= |path| && path[..|prefix|] == prefix
  }

  lemma CoversTransitive(a: Path, b: Path, c: Path)
    requires Covers(a, b) && Covers(b, c)
    ensures Covers(a, c)
  {
    assert c[..|a|] == c[..|b|][..|a|];
  }

  /** One changed logical object version and what the walker found in it. */
  datatype ObjectChange = ObjectChange(
    objectId: Name,
    version: nat,
    siteId: Option<Name>,
    deviceMac: Option<Name>,
    paths: seq<Path>,
    complete: bool,
    fields: seq<Name>)

  datatype ChangedObject = ChangedObject(objectId: Name, version: nat, siteId: Option<Name>, deviceMac: Option<Name>)

  datatype Atom = Atom(id: nat, objectId: Name, version: nat, attribute: Name, paths: seq<Path>, complete: bool)

  datatype ChangeSet = ChangeSet(objects: seq<ChangedObject>, atoms: seq<Atom>)

  datatype ChangeError = RepeatedVersion | UnnameableAttribute

  /** The walker reports locations below the document, so every path has a segment. */
  predicate Walked(change: ObjectChange) {
    forall p | p in change.paths :: p != []
  }

  // Naming a path as far as its segments can be named.

  predicate SegmentNameable(segment: Name) {
    1 <= |segment.text| <= MAX_IDENTIFIER_CHARS
  }

  function NameableLength(path: Path): (n: nat)
    ensures n <= |path|
    ensures forall i | 0 <= i < n :: SegmentNameable(path[i])
    ensures n < |path| ==> !SegmentNameable(path[n])
  {
    if path == [] || !SegmentNameable(path[0]) then 0 else 1 + NameableLength(path[1..])
  }

  function Named(path: Path): (named: Path)
    ensures Covers(named, path)
  {
    path[..NameableLength(path)]
  }

  /** The path as far as each segment can be named; a change whose attribute itself cannot be named is an error. */
  function Nameable(path: Path): (r: Result<Path, ChangeError>)
    ensures r.Err? <==> path != [] && !SegmentNameable(path[0])
    ensures r.Ok? ==> Covers(r.value, path) && (path != [] ==> r.value != [] && r.value[0] == path[0])
    ensures r.Ok? && |r.value| < |path| ==> !SegmentNameable(path[|r.value|])
    ensures r.Ok? ==> forall segment | segment in r.value :: SegmentNameable(segment)
  {
    if path != [] && NameableLength(path) == 0 then Err(UnnameableAttribute) else Ok(Named(path))
  }

  // What one object's atoms must be.

  /** The named paths the walker found below one attribute. */
  ghost function Group(paths: seq<Path>, attribute: Name): set<Path> {
    set p | p in paths && p != [] && p[0] == attribute :: Named(p)
  }

  /** An attribute the walker never reached still gets an atom whose only path is the attribute. */
  ghost function AtomPaths(change: ObjectChange, attribute: Name): set<Path> {
    var found := Group(change.paths, attribute);
    if found == {} then {[attribute]} else found
  }

  ghost predicate Changed(change: ObjectChange, attribute: Name) {
    Group(change.paths, attribute) != {} || (!change.complete && attribute in change.fields)
  }

  predicate PathLeq(a: Path, b: Path) {
    LexLeq(a, b, NameBefore)
  }

  ghost predicate Holds(s: seq<Path>, paths: set<Path>) {
    Distinct(s) && forall q :: q in s <==> q in paths
  }

  ghost predicate IsAtomOf(atom: Atom, change: ObjectChange) {
    && atom.objectId == change.objectId && atom.version == change.version && atom.complete == change.complete
    && Changed(change, atom.attribute)
    && Holds(atom.paths, AtomPaths(change, atom.attribute))
    && InOrder(atom.paths, PathLeq)
  }

  /** The atoms of one object, its attributes by name, numbered from `first`. */
  ghost predicate AtomsOf(atoms: seq<Atom>, change: ObjectChange, first: nat) {
    && (forall k | 0 <= k < |atoms| :: atoms[k].id == first + k && IsAtomOf(atoms[k], change))
    && (forall k, l | 0 <= k < l < |atoms| :: NameBefore(atoms[k].attribute, atoms[l].attribute))
    && (forall a | Changed(change, a) :: exists k :: 0 <= k < |atoms| && atoms[k].attribute == a)
  }

  ghost predicate AllNameable(change: ObjectChange) {
    && PathsNameable(change.paths)
    && (!change.complete ==> forall f | f in change.fields :: Nameable([f]).Ok?)
  }

  // Grouping one object's paths.

  /** Paths by attribute, and the attributes in the order they were first seen. */
  datatype Groups = Groups(paths: map<Name, seq<Path>>, names: seq<Name>)

  function Known(groups: Groups, attribute: Name): seq<Path> {
    if attribute in groups.paths then groups.paths[attribute] else []
  }

  /** `paths[attribute].add(path)`. */
  function Put(groups: Groups, attribute: Name, path: Path): Groups {
    var known := Known(groups, attribute);
    Groups(groups.paths[attribute := if path in known then known else known + [path]],
           if attribute in groups.paths then groups.names else groups.names + [attribute])
  }

  ghost predicate Indexed(groups: Groups) {
    Distinct(groups.names) && forall a :: a in groups.names <==> a in groups.paths
  }

  lemma PutIndexed(groups: Groups, attribute: Name, path: Path)
    requires Indexed(groups)
    ensures Indexed(Put(groups, attribute, path))
  {
  }

  ghost predicate Grouped(groups: Groups, paths: seq<Path>) {
    && Indexed(groups)
    && (forall a :: a in groups.paths <==> Group(paths, a) != {})
    && (forall a :: Holds(Known(groups, a), Group(paths, a)))
  }

  lemma GroupAppend(paths: seq<Path>, path: Path, attribute: Name)
    requires path != []
    ensures Group(paths + [path], attribute)
         == Group(paths, attribute) + (if path[0] == attribute then {Named(path)} else {})
  {
    assert forall p :: p in paths + [path] <==> p in paths || p == path;
  }

  lemma PutHolds(known: seq<Path>, paths: set<Path>, path: Path)
    requires Holds(known, paths)
    ensures Holds(if path in known then known else known + [path], paths + {path})
  {
  }

  lemma GroupedPut(groups: Groups, paths: seq<Path>, path: Path, named: Path)
    requires Grouped(groups, paths) && path != [] && Nameable(path) == Ok(named)
    ensures Grouped(Put(groups, named[0], named), paths + [path])
  {
    PutIndexed(groups, path[0], Named(path));
    var put := Put(groups, path[0], Named(path));
    forall a
      ensures Holds(Known(put, a), Group(paths + [path], a))
      ensures a in put.paths <==> Group(paths + [path], a) != {}
    {
      GroupAppend(paths, path, a);
      assert Holds(Known(groups, a), Group(paths, a));
      if a == path[0] {
        PutHolds(Known(groups, a), Group(paths, a), Named(path));
        assert Named(path) in Group(paths + [path], a);
      }
    }
  }

  /** The groups, with one more for each changed field the walker never reached. */
  ghost predicate Widened(groups: Groups, change: ObjectChange, fields: seq<Name>) {
    && Indexed(groups)
    && (forall a :: a in groups.paths <==> Group(change.paths, a) != {} || a in fields)
    && (forall a | a in groups.paths :: Holds(groups.paths[a], AtomPaths(change, a)))
  }

  lemma GroupedWidened(groups: Groups, change: ObjectChange)
    requires Grouped(groups, change.paths)
    ensures Widened(groups, change, [])
  {
    forall a | a in groups.paths
      ensures Holds(groups.paths[a], AtomPaths(change, a))
    {
      assert Holds(Known(groups, a), Group(change.paths, a));
    }
  }

  lemma WidenedPut(groups: Groups, change: ObjectChange, fields: seq<Name>, field: Name)
    requires Widened(groups, change, fields)
    ensures Widened(if field in groups.paths then groups else Put(groups, field, [field]), change, fields + [field])
  {
    if field !in groups.paths {
      PutIndexed(groups, field, [field]);
      assert Known(groups, field) + [[field]] == [[field]];
      assert Holds([[field]], {[field]});
    }
  }

  predicate PathsNameable(paths: seq<Path>) {
    forall p | p in paths :: Nameable(p).Ok?
  }

  lemma PathsNameableSnoc(paths: seq<Path>, path: Path)
    ensures PathsNameable(paths + [path]) <==> PathsNameable(paths) && Nameable(path).Ok?
  {
    assert forall p :: p in paths + [path] <==> p in paths || p == path;
  }

  lemma PathsNameablePrefix(paths: seq<Path>, i: nat)
    requires i < |paths| && Nameable(paths[i]).Err?
    ensures !PathsNameable(paths)
  {
  }

  /** `paths[nameable[0]].add(nameable)`. */
  method AddPath(groups: Groups, ghost paths: seq<Path>, path: Path) returns (r: Result<Groups, ChangeError>)
    requires Grouped(groups, paths) && path != []
    ensures r.Err? <==> Nameable(path).Err?
    ensures r.Ok? ==> Grouped(r.value, paths + [path])
  {
    var nameable :- Nameable(path);
    GroupedPut(groups, paths, path, nameable);
    r := Ok(Put(groups, nameable[0], nameable));
  }

  method GroupPaths(change: ObjectChange) returns (r: Result<Groups, ChangeError>)
    requires Walked(change)
    ensures r.Err? <==> !PathsNameable(change.paths)
    ensures r.Ok? ==> Grouped(r.value, change.paths)
  {
    var groups := Groups(map[], []);
    for i := 0 to |change.paths|
      invariant PathsNameable(change.paths[..i]) && Grouped(groups, change.paths[..i])
    {
      var path := change.paths[i];
      assert path in change.paths;
      PathsNameableSnoc(change.paths[..i], path);
      Taking(change.paths, i);
      var added := AddPath(groups, change.paths[..i], path);
      if added.Err? {
        PathsNameablePrefix(change.paths, i);
        return Err(added.error);
      }
      groups := added.value;
    }
    Taken(change.paths);
    r := Ok(groups);
  }

  /** A changed field the walker never reached gets a group whose only path is the field. */
  method AddFields(grouped: Groups, change: ObjectChange) returns (r: Result<Groups, ChangeError>)
    requires Widened(grouped, change, [])
    ensures r.Err? <==> exists f :: f in change.fields && Nameable([f]).Err?
    ensures r.Ok? ==> Widened(r.value, change, change.fields)
  {
    var groups := grouped;
    for i := 0 to |change.fields|
      invariant forall f | f in change.fields[..i] :: Nameable([f]).Ok?
      invariant Widened(groups, change, change.fields[..i])
    {
      var field := change.fields[i];
      var nameable := Nameable([field]);
      if nameable.Err? {
        return Err(nameable.error);
      }
      assert nameable.value == [field];
      WidenedPut(groups, change, change.fields[..i], field);
      Taking(change.fields, i);
      if field !in groups.paths {
        groups := Put(groups, field, nameable.value);
      }
    }
    Taken(change.fields);
    r := Ok(groups);
  }

  method AllGroups(change: ObjectChange) returns (r: Result<Groups, ChangeError>)
    requires Walked(change)
    ensures r.Err? <==> !AllNameable(change)
    ensures r.Ok? ==> Widened(r.value, change, if change.complete then [] else change.fields)
  {
    var groups :- GroupPaths(change);
    GroupedWidened(groups, change);
    if !change.complete {
      groups :- AddFields(groups, change);
    }
    r := Ok(groups);
  }

  // Building one object's atoms.

  lemma PathOrder()
    ensures Total(PathLeq)
  {
    NameOrder();
    forall a: Path, b: Path
      ensures PathLeq(a, b) || PathLeq(b, a)
    {
      LexTotal(a, b, NameBefore);
    }
  }

  lemma SortedHolds(s: seq<Path>, paths: set<Path>)
    requires Holds(s, paths)
    ensures Holds(Prioritized(s, PathLeq), paths) && InOrder(Prioritized(s, PathLeq), PathLeq)
  {
    PathOrder();
    PrioritizedOrdered(s, PathLeq);
    SortedMembers(s, PathLeq);
  }

  /** One attribute's atom. */
  function AtomFor(groups: Groups, change: ObjectChange, attribute: Name, id: nat): Atom {
    Atom(id, change.objectId, change.version, attribute, Prioritized(Known(groups, attribute), PathLeq), change.complete)
  }

  lemma AtomForIsAtom(groups: Groups, change: ObjectChange, attribute: Name, id: nat)
    requires Widened(groups, change, if change.complete then [] else change.fields) && attribute in groups.paths
    ensures IsAtomOf(AtomFor(groups, change, attribute, id), change)
  {
    SortedHolds(groups.paths[attribute], AtomPaths(change, attribute));
  }

  /** One atom for each of these names, in order. */
  ghost predicate Made(atoms: seq<Atom>, names: seq<Name>, groups: Groups, change: ObjectChange, first: nat) {
    && |atoms| == |names|
    && forall k | 0 <= k < |names| :: atoms[k] == AtomFor(groups, change, names[k], first + k)
  }

  lemma MadeStep(atoms: seq<Atom>, names: seq<Name>, groups: Groups, change: ObjectChange, first: nat, name: Name)
    requires Made(atoms, names, groups, change, first)
    ensures Made(atoms + [AtomFor(groups, change, name, first + |names|)], names + [name], groups, change, first)
  {
  }

  /** One atom for each name makes the atoms of the object. */
  lemma NamedAtoms(atoms: seq<Atom>, names: seq<Name>, groups: Groups, change: ObjectChange, first: nat)
    requires Widened(groups, change, if change.complete then [] else change.fields)
    requires names == Prioritized(groups.names, NameLeq) && Made(atoms, names, groups, change, first)
    ensures AtomsOf(atoms, change, first)
  {
    NamesAscend(groups.names);
    SortedMembers(groups.names, NameLeq);
    forall k | 0 <= k < |atoms|
      ensures atoms[k].id == first + k && IsAtomOf(atoms[k], change)
    {
      assert names[k] in groups.names;
      AtomForIsAtom(groups, change, names[k], first + k);
    }
    forall a | Changed(change, a)
      ensures exists k :: 0 <= k < |atoms| && atoms[k].attribute == a
    {
      assert a in groups.paths && a in groups.names;
      assert a in names;
      var k :| 0 <= k < |names| && names[k] == a;
      assert atoms[k].attribute == a;
    }
  }

  method NameAtoms(names: seq<Name>, groups: Groups, change: ObjectChange, first: nat) returns (atoms: seq<Atom>)
    ensures Made(atoms, names, groups, change, first)
  {
    atoms := [];
    for i := 0 to |names|
      invariant Made(atoms, names[..i], groups, change, first)
    {
      MadeStep(atoms, names[..i], groups, change, first, names[i]);
      Taking(names, i);
      atoms := atoms + [AtomFor(groups, change, names[i], first + i)];
    }
    Taken(names);
  }

  method AttributeAtoms(groups: Groups, change: ObjectChange, first: nat) returns (atoms: seq<Atom>)
    requires Widened(groups, change, if change.complete then [] else change.fields)
    ensures AtomsOf(atoms, change, first)
  {
    var names := Prioritized(groups.names, NameLeq);
    atoms := NameAtoms(names, groups, change, first);
    NamedAtoms(atoms, names, groups, change, first);
  }

  method ObjectAtoms(change: ObjectChange, first: nat) returns (r: Result<seq<Atom>, ChangeError>)
    requires Walked(change)
    ensures r.Err? <==> !AllNameable(change)
    ensures r.Ok? ==> AtomsOf(r.value, change, first)
  {
    var groups :- AllGroups(change);
    var atoms := AttributeAtoms(groups, change, first);
    r := Ok(atoms);
  }

  // Building the change set.

  predicate IdentityLeq(a: ObjectChange, b: ObjectChange) {
    if a.objectId == b.objectId then a.version <= b.version else NameLeq(a.objectId, b.objectId)
  }

  predicate SameObject(a: ObjectChange, b: ObjectChange) {
    a.objectId == b.objectId && a.version == b.version
  }

  predicate RepeatsVersion(changes: seq<ObjectChange>) {
    exists i, j :: 0 <= i < j < |changes| && SameObject(changes[i], changes[j])
  }

  lemma IdentityOrder()
    ensures Total(IdentityLeq) && Transitive(IdentityLeq)
    ensures forall a, b | IdentityLeq(a, b) && IdentityLeq(b, a) :: SameObject(a, b)
  {
    NameOrder();
    forall a: ObjectChange, b: ObjectChange, c: ObjectChange | IdentityLeq(a, b) && IdentityLeq(b, c)
      ensures IdentityLeq(a, c)
    {
    }
  }

  /** Objects in (logical object, version) order, then attributes by name. */
  ghost predicate Precedes(a: Atom, b: Atom) {
    if a.objectId != b.objectId then NameLeq(a.objectId, b.objectId)
    else if a.version != b.version then a.version < b.version
    else NameBefore(a.attribute, b.attribute)
  }

  function ObjectOf(change: ObjectChange): ChangedObject {
    ChangedObject(change.objectId, change.version, change.siteId, change.deviceMac)
  }

  /** The atoms of these objects: numbered from 1 in order, each an atom of its object, none missing. */
  ghost predicate Built(change: ChangeSet, changes: seq<ObjectChange>) {
    && |change.objects| == |changes|
    && (forall k | 0 <= k < |changes| :: change.objects[k] == ObjectOf(changes[k]))
    && (forall k | 0 <= k < |change.atoms| :: change.atoms[k].id == k + 1)
    && (forall k | 0 <= k < |change.atoms| :: Owned(change.atoms[k], changes))
    && EveryChangeHasAtom(change.atoms, changes)
    && AtomsInOrder(change.atoms)
  }

  ghost predicate EveryChangeHasAtom(atoms: seq<Atom>, changes: seq<ObjectChange>) {
    forall c, a | c in changes && Changed(c, a) :: HasAtom(atoms, c, a)
  }

  ghost predicate AtomsInOrder(atoms: seq<Atom>) {
    forall k, l | 0 <= k < l < |atoms| :: Precedes(atoms[k], atoms[l])
  }

  ghost predicate Owned(atom: Atom, changes: seq<ObjectChange>) {
    exists c :: c in changes && IsAtomOf(atom, c)
  }

  ghost predicate HasAtom(atoms: seq<Atom>, change: ObjectChange, attribute: Name) {
    exists k :: 0 <= k < |atoms| && atoms[k].attribute == attribute && IsAtomOf(atoms[k], change)
  }

  lemma OwnedAppend(built: seq<Atom>, changes: seq<ObjectChange>, next: ObjectChange, atoms: seq<Atom>)
    requires forall k | 0 <= k < |built| :: Owned(built[k], changes)
    requires forall k | 0 <= k < |atoms| :: IsAtomOf(atoms[k], next)
    ensures forall k | 0 <= k < |built + atoms| :: Owned((built + atoms)[k], changes + [next])
  {
    assert forall c | c in changes :: c in changes + [next];
    assert next in changes + [next];
  }

  lemma HasAtomAppend(built: seq<Atom>, atoms: seq<Atom>, c: ObjectChange, a: Name)
    requires HasAtom(built, c, a) || HasAtom(atoms, c, a)
    ensures HasAtom(built + atoms, c, a)
  {
    if HasAtom(built, c, a) {
      var k :| 0 <= k < |built| && built[k].attribute == a && IsAtomOf(built[k], c);
      assert (built + atoms)[k] == built[k];
    } else {
      var k :| 0 <= k < |atoms| && atoms[k].attribute == a && IsAtomOf(atoms[k], c);
      assert (built + atoms)[|built| + k] == atoms[k];
    }
  }

  lemma Follows(earlier: Atom, changes: seq<ObjectChange>, later: Atom, next: ObjectChange)
    requires Owned(earlier, changes) && IsAtomOf(later, next)
    requires forall c | c in changes :: IdentityLeq(c, next) && !SameObject(c, next)
    ensures Precedes(earlier, later)
  {
  }

  lemma AscendingAppend(built: seq<Atom>, atoms: seq<Atom>)
    requires AtomsInOrder(built) && AtomsInOrder(atoms)
    requires forall k, l | 0 <= k < |built| && 0 <= l < |atoms| :: Precedes(built[k], atoms[l])
    ensures AtomsInOrder(built + atoms)
  {
  }

  lemma AttributesHaveAtoms(built: seq<Atom>, changes: seq<ObjectChange>, next: ObjectChange, atoms: seq<Atom>, first: nat)
    requires EveryChangeHasAtom(built, changes) && AtomsOf(atoms, next, first)
    ensures EveryChangeHasAtom(built + atoms, changes + [next])
  {
    forall c, a | c in changes + [next] && Changed(c, a)
      ensures HasAtom(built + atoms, c, a)
    {
      assert c in changes || c == next;
      assert HasAtom(built, c, a) || HasAtom(atoms, c, a);
      HasAtomAppend(built, atoms, c, a);
    }
  }

  lemma AtomsStayOrdered(built: seq<Atom>, changes: seq<ObjectChange>, next: ObjectChange, atoms: seq<Atom>, first: nat)
    requires AtomsInOrder(built) && AtomsOf(atoms, next, first)
    requires forall k | 0 <= k < |built| :: Owned(built[k], changes)
    requires forall c | c in changes :: IdentityLeq(c, next) && !SameObject(c, next)
    ensures AtomsInOrder(built + atoms)
  {
    forall k, l | 0 <= k < |built| && 0 <= l < |atoms|
      ensures Precedes(built[k], atoms[l])
    {
      assert Owned(built[k], changes);
      Follows(built[k], changes, atoms[l], next);
    }
    AtomsAscend(atoms, next, first);
    AscendingAppend(built, atoms);
  }

  lemma BuiltStep(built: ChangeSet, changes: seq<ObjectChange>, next: ObjectChange, atoms: seq<Atom>)
    requires Built(built, changes) && AtomsOf(atoms, next, |built.atoms| + 1)
    requires forall c | c in changes :: IdentityLeq(c, next) && !SameObject(c, next)
    ensures Built(ChangeSet(built.objects + [ObjectOf(next)], built.atoms + atoms), changes + [next])
  {
    OwnedAppend(built.atoms, changes, next, atoms);
    AttributesHaveAtoms(built.atoms, changes, next, atoms, |built.atoms| + 1);
    AtomsStayOrdered(built.atoms, changes, next, atoms, |built.atoms| + 1);
  }

  lemma AtomsAscend(atoms: seq<Atom>, change: ObjectChange, first: nat)
    requires AtomsOf(atoms, change, first)
    ensures AtomsInOrder(atoms)
  {
    assert forall k | 0 <= k < |atoms| :: IsAtomOf(atoms[k], change);
  }

  /** Build atoms with stable ids. */
  method BuildChangeSet(changes: seq<ObjectChange>)
    returns (r: Result<ChangeSet, ChangeError>)
    requires forall c | c in changes :: Walked(c)
    ensures r.Err? <==> RepeatsVersion(Prioritized(changes, IdentityLeq)) || exists c :: c in changes && !AllNameable(c)
    ensures r.Ok? ==> Built(r.value, Prioritized(changes, IdentityLeq))
  {
    var ordered := Prioritized(changes, IdentityLeq);
    IdentityOrder();
    PrioritizedOrdered(changes, IdentityLeq);
    SortedMembers(changes, IdentityLeq);
    if RepeatsVersion(ordered) {
      return Err(RepeatedVersion);
    }
    var built := ChangeSet([], []);
    for i := 0 to |ordered|
      invariant Built(built, ordered[..i])
      invariant forall c | c in ordered[..i] :: AllNameable(c)
    {
      var change := ordered[i];
      var atoms := ObjectAtoms(change, |built.atoms| + 1);
      if atoms.Err? {
        return Err(atoms.error);
      }
      forall c | c in ordered[..i]
        ensures IdentityLeq(c, change) && !SameObject(c, change)
      {
        var k :| 0 <= k < i && ordered[k] == c;
        OrderedAt(ordered, IdentityLeq, k, i);
      }
      BuiltStep(built, ordered[..i], change, atoms.value);
      Taking(ordered, i);
      built := ChangeSet(built.objects + [ObjectOf(change)], built.atoms + atoms.value);
    }
    Taken(ordered);
    r := Ok(built);
  }

  /** No changed path is lost: each one the walker found is named, or has a named parent, on an atom of its object. */
  lemma EveryPathHasAtom(change: ChangeSet, changes: seq<ObjectChange>, c: ObjectChange, path: Path)
    requires Built(change, changes) && c in changes && path in c.paths && path != []
    ensures exists atom, q :: atom in change.atoms && IsAtomOf(atom, c) && atom.attribute == path[0]
                              && q in atom.paths && Covers(q, path)
  {
    assert Named(path) in Group(c.paths, path[0]);
    assert Changed(c, path[0]);
    assert HasAtom(change.atoms, c, path[0]);
    var k :| 0 <= k < |change.atoms| && change.atoms[k].attribute == path[0] && IsAtomOf(change.atoms[k], c);
    assert Named(path) in change.atoms[k].paths;
    assert change.atoms[k] in change.atoms;
  }

  /** Atom ids depend on nothing but the objects: the order they arrive in is irrelevant. */
  lemma ChangeOrderIrrelevant(s: seq<ObjectChange>, t: seq<ObjectChange>)
    requires multiset(s) == multiset(t) && !RepeatsVersion(Prioritized(s, IdentityLeq))
    ensures Prioritized(s, IdentityLeq) == Prioritized(t, IdentityLeq)
  {
    IdentityOrder();
    SortedMembers(s, IdentityLeq);
    forall x, y | x in s && y in s && IdentityLeq(x, y) && IdentityLeq(y, x)
      ensures x == y
    {
      var ordered := Prioritized(s, IdentityLeq);
      var i :| 0 <= i < |ordered| && ordered[i] == x;
      var j :| 0 <= j < |ordered| && ordered[j] == y;
      assert SameObject(ordered[i], ordered[j]) && SameObject(ordered[j], ordered[i]);
    }
    PriorityIgnoresInputOrder(s, t, IdentityLeq);
  }
}
