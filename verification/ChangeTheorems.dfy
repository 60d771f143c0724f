/** What a change set holds, from the objects as given: when it cannot be built, and what each path of an atom stands for. */
module ChangeTheorems {
  import opened Contracts
  import opened Ordering
  import opened Change

  /** A segment can be named when it has at least one and at most 128 characters. */
  predicate Fits(segment: Name) {
    0 < |segment.text| && |segment.text| < 129
  }

  /** The path is the found one as far as its segments fit. */
  predicate NamesAsFar(q: Path, path: Path) {
    && |q| <= |path| && (forall i | 0 <= i < |q| :: q[i] == path[i] && Fits(path[i]))
    && (|q| < |path| ==> !Fits(path[|q|]))
  }

  lemma NamedExactly(path: Path)
    ensures NamesAsFar(Named(path), path)
    ensures Nameable(path).Ok? <==> path == [] || Fits(path[0])
  {
  }

  /** Every path on an atom names, as far as it can, one that was found below the atom's attribute; or it is the attribute
      itself, of a field that differs although nothing was found below it. */
  lemma AtomPathsExactly(atom: Atom, c: ObjectChange, q: Path)
    requires IsAtomOf(atom, c)
    ensures q in atom.paths
       <==> (exists path :: path in c.paths && path != [] && path[0] == atom.attribute && NamesAsFar(q, path))
            || (q == [atom.attribute] && !c.complete && atom.attribute in c.fields
                && forall path | path in c.paths && path != [] :: path[0] != atom.attribute)
  {
    var found := Group(c.paths, atom.attribute);
    assert forall p | p in c.paths && p != [] && p[0] == atom.attribute :: Named(p) in found;
    forall path | path in c.paths && path != [] && path[0] == atom.attribute && NamesAsFar(q, path)
      ensures q in atom.paths
    {
      NamedExactly(path);
      OneName(q, Named(path), path);
      assert Named(path) in found;
    }
    if q in atom.paths && found != {} {
      var path :| path in c.paths && path != [] && path[0] == atom.attribute && Named(path) == q;
      NamedExactly(path);
    }
  }

  lemma OneName(q: Path, p: Path, path: Path)
    requires NamesAsFar(q, path) && NamesAsFar(p, path)
    ensures q == p
  {
    assert forall k | 0 <= k < |p| :: Fits(path[k]);
    assert forall k | 0 <= k < |q| :: Fits(path[k]);
  }

  // When a change set cannot be built.

  /** Two of the objects given are one version of one object. */
  ghost predicate GivenTwice(changes: seq<ObjectChange>) {
    exists i, j :: 0 <= i < |changes| && 0 <= j < |changes| && i != j
                   && changes[i].objectId == changes[j].objectId && changes[i].version == changes[j].version
  }

  lemma {:induction false} CountedTwice(s: seq<ObjectChange>, x: ObjectChange)
    ensures multiset(s)[x] >= 2 <==> exists i, j :: 0 <= i < j < |s| && s[i] == x && s[j] == x
  {
    if s != [] {
      CountedTwice(s[1..], x);
      assert s == [s[0]] + s[1..];
      if s[0] == x && multiset(s[1..])[x] >= 1 {
        assert x in s[1..];
        var j :| 0 <= j < |s[1..]| && s[1..][j] == x;
        assert s[0] == x && s[j + 1] == x;
      }
      if i, j :| 0 <= i < j < |s| && s[i] == x && s[j] == x {
        assert s[1..][j - 1] == x;
        if i > 0 {
          assert s[1..][i - 1] == x;
        } else {
          assert x in multiset(s[1..]);
        }
      }
      if i, j :| 0 <= i < j < |s[1..]| && s[1..][i] == x && s[1..][j] == x {
        assert s[i + 1] == x && s[j + 1] == x;
      }
    }
  }

  /** Given twice, by what is given alone. */
  ghost predicate HasTwin(s: seq<ObjectChange>) {
    exists x, y :: x in s && y in s && SameObject(x, y) && (x != y || multiset(s)[x] >= 2)
  }

  lemma TwinsRepeat(s: seq<ObjectChange>)
    ensures RepeatsVersion(s) <==> HasTwin(s)
  {
    if RepeatsVersion(s) {
      var i, j :| 0 <= i < j < |s| && SameObject(s[i], s[j]);
      assert s[i] in s && s[j] in s;
      CountedTwice(s, s[i]);
    }
    if HasTwin(s) {
      var x, y :| x in s && y in s && SameObject(x, y) && (x != y || multiset(s)[x] >= 2);
      CountedTwice(s, x);
      if x != y {
        var i :| 0 <= i < |s| && s[i] == x;
        var j :| 0 <= j < |s| && s[j] == y;
        assert if i < j then SameObject(s[i], s[j]) else SameObject(s[j], s[i]);
      }
    }
  }

  /** The two errors, on the objects as given: a version of one object given twice, or an attribute that cannot be named, of
      a path that was found or, where not all were, of a field that differs. */
  lemma ErrorsExactly(changes: seq<ObjectChange>)
    requires forall c | c in changes :: Walked(c)
    ensures RepeatsVersion(Prioritized(changes, IdentityLeq)) <==> GivenTwice(changes)
    ensures forall c :: AllNameable(c)
              <==> (forall path | path in c.paths && path != [] :: Fits(path[0]))
                   && (!c.complete ==> forall f | f in c.fields :: Fits(f))
  {
    IdentityOrder();
    PrioritizedOrdered(changes, IdentityLeq);
    SortedMembers(changes, IdentityLeq);
    TwinsRepeat(changes);
    TwinsRepeat(Prioritized(changes, IdentityLeq));
    assert RepeatsVersion(changes) <==> GivenTwice(changes);
    forall path: Path {
      NamedExactly(path);
    }
    forall f: Name {
      NamedExactly([f]);
    }
  }

  /** A prefix covers a path exactly when the path goes on from it. */
  lemma CoversExactly(prefix: Path, path: Path)
    ensures Covers(prefix, path) <==> exists rest: Path :: path == prefix + rest
  {
    if Covers(prefix, path) {
      assert path == prefix + path[|prefix|..];
    }
  }
}
