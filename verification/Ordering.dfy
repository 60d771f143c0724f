/** Stable sorting, lexicographic order and filtering, as the pipeline's `sorted(...)` and comprehensions use them. */
module Ordering {
  // Priority order: a stable sort by a total comparison.

  ghost predicate Total<T(!new)>(leq: (T, T) -> bool) {
    forall x, y :: leq(x, y) || leq(y, x)
  }

  function Insert<T>(x: T, s: seq<T>, leq: (T, T) -> bool): seq<T> {
    if s == [] || leq(x, s[0]) then [x] + s else [s[0]] + Insert(x, s[1..], leq)
  }

  /** `sorted(items, key=priority)`. */
  function Prioritized<T>(s: seq<T>, leq: (T, T) -> bool): seq<T> {
    if s == [] then [] else Insert(s[0], Prioritized(s[1..], leq), leq)
  }

  predicate InOrder<T>(s: seq<T>, leq: (T, T) -> bool) {
    forall i | 0 < i < |s| :: leq(s[i - 1], s[i])
  }

  lemma TailInOrder<T>(s: seq<T>, leq: (T, T) -> bool)
    requires s != [] && InOrder(s, leq)
    ensures InOrder(s[1..], leq)
    ensures |s| > 1 ==> leq(s[0], s[1..][0])
  {
    assert |s| > 1 ==> leq(s[1 - 1], s[1]);
    forall i | 0 < i < |s[1..]|
      ensures leq(s[1..][i - 1], s[1..][i])
    {
      assert leq(s[i + 1 - 1], s[i + 1]);
    }
  }

  lemma {:induction false} InsertOrdered<T(!new)>(x: T, s: seq<T>, leq: (T, T) -> bool)
    requires Total(leq) && InOrder(s, leq)
    ensures InOrder(Insert(x, s, leq), leq)
    ensures var out := Insert(x, s, leq); out != [] && (out[0] == x || (s != [] && out[0] == s[0]))
  {
    if s != [] && !leq(x, s[0]) {
      TailInOrder(s, leq);
      InsertOrdered(x, s[1..], leq);
      assert leq(s[0], Insert(x, s[1..], leq)[0]);
    }
  }

  lemma {:induction false} InsertPermutes<T>(x: T, s: seq<T>, leq: (T, T) -> bool)
    ensures multiset(Insert(x, s, leq)) == multiset{x} + multiset(s)
  {
    if s != [] && !leq(x, s[0]) {
      InsertPermutes(x, s[1..], leq);
      assert s == [s[0]] + s[1..];
    }
  }

  lemma {:induction false} PrioritizedOrdered<T(!new)>(s: seq<T>, leq: (T, T) -> bool)
    requires Total(leq)
    ensures InOrder(Prioritized(s, leq), leq)
    ensures multiset(Prioritized(s, leq)) == multiset(s)
  {
    if s != [] {
      PrioritizedOrdered(s[1..], leq);
      InsertOrdered(s[0], Prioritized(s[1..], leq), leq);
      InsertPermutes(s[0], Prioritized(s[1..], leq), leq);
      assert s == [s[0]] + s[1..];
    }
  }

  /** Sorting what is already in order changes nothing. */
  lemma {:induction false} PrioritizedFixed<T>(s: seq<T>, leq: (T, T) -> bool)
    requires InOrder(s, leq)
    ensures Prioritized(s, leq) == s
  {
    if s != [] {
      TailInOrder(s, leq);
      PrioritizedFixed(s[1..], leq);
    }
  }

  ghost predicate Transitive<T(!new)>(leq: (T, T) -> bool) {
    forall x, y, z :: leq(x, y) && leq(y, z) ==> leq(x, z)
  }

  lemma {:induction false} FirstIsLeast<T(!new)>(s: seq<T>, leq: (T, T) -> bool, i: nat)
    requires Transitive(leq) && Total(leq) && InOrder(s, leq) && i < |s|
    ensures leq(s[0], s[i])
  {
    if i > 0 {
      FirstIsLeast(s, leq, i - 1);
      assert leq(s[i - 1], s[i]);
    }
  }

  /** A priority that tells items apart fixes their order: nothing depends on the order they came in. */
  lemma {:induction false} OrderUnique<T(!new)>(s: seq<T>, t: seq<T>, leq: (T, T) -> bool)
    requires Transitive(leq) && Total(leq) && InOrder(s, leq) && InOrder(t, leq)
    requires multiset(s) == multiset(t)
    requires forall x, y | x in s && y in s && leq(x, y) && leq(y, x) :: x == y
    ensures s == t
    decreases |s|
  {
    if s == [] {
      assert |multiset(t)| == 0;
    } else {
      assert |t| == |multiset(t)| == |multiset(s)| == |s|;
      assert s[0] in multiset(t) && t[0] in multiset(s);
      var i :| 0 <= i < |t| && t[i] == s[0];
      var j :| 0 <= j < |s| && s[j] == t[0];
      FirstIsLeast(t, leq, i);
      FirstIsLeast(s, leq, j);
      assert s[0] == t[0];
      assert s == [s[0]] + s[1..] && t == [t[0]] + t[1..];
      assert multiset(s[1..]) + multiset{s[0]} == multiset(s) == multiset(t[1..]) + multiset{s[0]};
      Cancelled(multiset(s[1..]), multiset(t[1..]), s[0]);
      TailInOrder(s, leq);
      TailInOrder(t, leq);
      OrderUnique(s[1..], t[1..], leq);
    }
  }

  lemma PriorityIgnoresInputOrder<T(!new)>(s: seq<T>, t: seq<T>, leq: (T, T) -> bool)
    requires Transitive(leq) && Total(leq) && multiset(s) == multiset(t)
    requires forall x, y | x in s && y in s && leq(x, y) && leq(y, x) :: x == y
    ensures Prioritized(s, leq) == Prioritized(t, leq)
  {
    PrioritizedOrdered(s, leq);
    PrioritizedOrdered(t, leq);
    forall x | x in Prioritized(s, leq)
      ensures x in s
    {
      assert x in multiset(Prioritized(s, leq));
      assert x in multiset(s);
    }
    OrderUnique(Prioritized(s, leq), Prioritized(t, leq), leq);
  }

  lemma Cancelled<T>(a: multiset<T>, b: multiset<T>, x: T)
    requires a + multiset{x} == b + multiset{x}
    ensures a == b
  {
    assert a == a + multiset{x} - multiset{x};
    assert b == b + multiset{x} - multiset{x};
  }

  // Walking a sequence from the front.

  lemma Taking<T>(s: seq<T>, i: nat)
    requires i < |s|
    ensures s[..i + 1] == s[..i] + [s[i]]
  {
  }

  lemma Taken<T>(s: seq<T>)
    ensures s[..|s|] == s
  {
  }

  // Members without repetition.

  predicate Distinct<T(==)>(s: seq<T>) {
    forall i, j | 0 <= i < j < |s| :: s[i] != s[j]
  }

  lemma {:induction false} InsertMembers<T>(x: T, s: seq<T>, leq: (T, T) -> bool)
    ensures forall y :: y in Insert(x, s, leq) <==> y == x || y in s
    ensures Distinct(s) && x !in s ==> Distinct(Insert(x, s, leq))
  {
    if s != [] && !leq(x, s[0]) {
      InsertMembers(x, s[1..], leq);
      if Distinct(s) && x !in s {
        assert forall k | 0 <= k < |s[1..]| :: s[1..][k] == s[k + 1] != s[0];
        assert s[0] !in Insert(x, s[1..], leq);
      }
    }
  }

  /** Sorting keeps the members, and keeps them distinct. */
  lemma {:induction false} SortedMembers<T>(s: seq<T>, leq: (T, T) -> bool)
    ensures forall x :: x in Prioritized(s, leq) <==> x in s
    ensures Distinct(s) ==> Distinct(Prioritized(s, leq))
  {
    if s != [] {
      SortedMembers(s[1..], leq);
      InsertMembers(s[0], Prioritized(s[1..], leq), leq);
    }
  }

  /** Lists of distinct items with the same members hold the same items. */
  lemma DistinctMembers<T(!new)>(s: seq<T>, t: seq<T>)
    requires Distinct(s) && Distinct(t) && forall x :: x in s <==> x in t
    ensures multiset(s) == multiset(t)
  {
    forall x: T
      ensures multiset(s)[x] == multiset(t)[x]
    {
      CountsOnce(s, x);
      CountsOnce(t, x);
    }
  }

  lemma {:induction false} CountsOnce<T>(s: seq<T>, x: T)
    requires Distinct(s)
    ensures multiset(s)[x] == if x in s then 1 else 0
  {
    if s != [] {
      CountsOnce(s[1..], x);
      assert s == [s[0]] + s[1..];
      assert forall k | 0 <= k < |s[1..]| :: s[1..][k] == s[k + 1] != s[0];
    }
  }

  lemma {:induction false} OrderedAt<T(!new)>(s: seq<T>, leq: (T, T) -> bool, i: nat, j: nat)
    requires InOrder(s, leq) && Transitive(leq) && i < j < |s|
    ensures leq(s[i], s[j])
  {
    assert leq(s[j - 1], s[j]);
    if i < j - 1 {
      OrderedAt(s, leq, i, j - 1);
    }
  }

  /** The last of a sorted sequence is its greatest. */
  lemma LastIsGreatest<T(!new)>(s: seq<T>, leq: (T, T) -> bool, x: T)
    requires InOrder(s, leq) && Transitive(leq) && Total(leq) && x in s
    ensures leq(x, s[|s| - 1])
  {
    var i :| 0 <= i < |s| && s[i] == x;
    if i < |s| - 1 {
      OrderedAt(s, leq, i, |s| - 1);
    }
  }

  // Lexicographic order, as Python orders strings and tuples.

  predicate LexLeq<T(==)>(a: seq<T>, b: seq<T>, less: (T, T) -> bool) {
    a == [] || (b != [] && (if a[0] == b[0] then LexLeq(a[1..], b[1..], less) else less(a[0], b[0])))
  }

  /** A strict total order of the elements makes a total, transitive and antisymmetric order of the sequences. */
  ghost predicate Strict<T(!new)>(less: (T, T) -> bool) {
    && (forall x, y :: x == y || less(x, y) || less(y, x))
    && (forall x, y :: !(less(x, y) && less(y, x)))
    && (forall x, y, z :: less(x, y) && less(y, z) ==> less(x, z))
  }

  lemma {:induction false} LexTotal<T(!new)>(a: seq<T>, b: seq<T>, less: (T, T) -> bool)
    requires Strict(less)
    ensures LexLeq(a, b, less) || LexLeq(b, a, less)
  {
    if a != [] && b != [] && a[0] == b[0] {
      LexTotal(a[1..], b[1..], less);
    }
  }

  lemma {:induction false} LexTransitive<T(!new)>(a: seq<T>, b: seq<T>, c: seq<T>, less: (T, T) -> bool)
    requires Strict(less) && LexLeq(a, b, less) && LexLeq(b, c, less)
    ensures LexLeq(a, c, less)
  {
    if a != [] && a[0] == b[0] == c[0] {
      LexTransitive(a[1..], b[1..], c[1..], less);
    }
  }

  lemma {:induction false} LexAntisymmetric<T(!new)>(a: seq<T>, b: seq<T>, less: (T, T) -> bool)
    requires Strict(less) && LexLeq(a, b, less) && LexLeq(b, a, less)
    ensures a == b
  {
    if a != [] {
      assert a[0] == b[0];
      LexAntisymmetric(a[1..], b[1..], less);
    }
  }

  predicate StringLeq(a: string, b: string) {
    LexLeq(a, b, (x: char, y: char) => x < y)
  }

  /** Strings are totally ordered, so a sort by strings is the same for every arrival order. */
  lemma StringOrder()
    ensures Total(StringLeq) && Transitive(StringLeq)
    ensures forall a, b | StringLeq(a, b) && StringLeq(b, a) :: a == b
  {
    var less := (x: char, y: char) => x < y;
    forall a: string, b: string
      ensures StringLeq(a, b) || StringLeq(b, a)
    {
      LexTotal(a, b, less);
    }
    forall a: string, b: string, c: string | StringLeq(a, b) && StringLeq(b, c)
      ensures StringLeq(a, c)
    {
      LexTransitive(a, b, c, less);
    }
    forall a: string, b: string | StringLeq(a, b) && StringLeq(b, a)
      ensures a == b
    {
      LexAntisymmetric(a, b, less);
    }
  }

  /** An identifier: a string compared as a whole. */
  datatype Name = Name(text: string)

  predicate NameLeq(a: Name, b: Name) {
    StringLeq(a.text, b.text)
  }

  predicate NameBefore(a: Name, b: Name) {
    a != b && NameLeq(a, b)
  }

  lemma NameOrder()
    ensures Total(NameLeq) && Transitive(NameLeq) && Strict(NameBefore)
    ensures forall a, b | NameLeq(a, b) && NameLeq(b, a) :: a == b
  {
    StringOrder();
  }

  predicate Ascending(names: seq<Name>) {
    forall i, j | 0 <= i < j < |names| :: NameBefore(names[i], names[j])
  }

  /** Sorted and distinct names strictly ascend. */
  lemma NamesAscend(names: seq<Name>)
    requires Distinct(names)
    ensures Ascending(Prioritized(names, NameLeq))
  {
    NameOrder();
    PrioritizedOrdered(names, NameLeq);
    SortedMembers(names, NameLeq);
    var sorted := Prioritized(names, NameLeq);
    forall i, j | 0 <= i < j < |sorted|
      ensures NameBefore(sorted[i], sorted[j])
    {
      OrderedAt(sorted, NameLeq, i, j);
    }
  }

  /** Names in order are the same names in the same order. */
  lemma AscendingMembers(s: seq<Name>, t: seq<Name>)
    requires Ascending(s) && Ascending(t) && forall name :: name in s <==> name in t
    ensures s == t
  {
    NameOrder();
    DistinctMembers(s, t);
    OrderUnique(s, t, NameLeq);
  }

  method SortedNames(names: seq<Name>) returns (sorted: seq<Name>)
    requires Distinct(names)
    ensures forall name :: name in sorted <==> name in names
    ensures Ascending(sorted)
  {
    sorted := Prioritized(names, NameLeq);
    SortedMembers(names, NameLeq);
    NamesAscend(names);
  }

  // Filtering, as a comprehension's `if`.

  function Filter<T>(s: seq<T>, keep: T -> bool): (out: seq<T>) {
    if s == [] then [] else (if keep(s[0]) then [s[0]] else []) + Filter(s[1..], keep)
  }

  lemma {:induction false} FilterMembers<T>(s: seq<T>, keep: T -> bool)
    ensures |Filter(s, keep)| <= |s|
    ensures forall x :: x in Filter(s, keep) <==> x in s && keep(x)
  {
    if s != [] {
      FilterMembers(s[1..], keep);
      assert forall x :: x in s <==> x == s[0] || x in s[1..];
    }
  }

  lemma Reassociate<T>(a: seq<T>, b: seq<T>, c: seq<T>)
    ensures a + (b + c) == (a + b) + c
  {
  }

  lemma {:induction false} FilterAppend<T>(s: seq<T>, t: seq<T>, keep: T -> bool)
    ensures Filter(s + t, keep) == Filter(s, keep) + Filter(t, keep)
  {
    if s == [] {
      assert s + t == t;
    } else {
      assert (s + t)[1..] == s[1..] + t;
      FilterAppend(s[1..], t, keep);
      Reassociate(if keep(s[0]) then [s[0]] else [], Filter(s[1..], keep), Filter(t, keep));
    }
  }

  lemma FilterSnoc<T>(s: seq<T>, x: T, keep: T -> bool)
    ensures Filter(s + [x], keep) == Filter(s, keep) + (if keep(x) then [x] else [])
  {
    FilterAppend(s, [x], keep);
    assert Filter([x][1..], keep) == [];
  }

  lemma {:induction false} FilterTwice<T>(s: seq<T>, first: T -> bool, second: T -> bool, both: T -> bool)
    requires forall x | x in s :: both(x) == (first(x) && second(x))
    ensures Filter(Filter(s, first), second) == Filter(s, both)
  {
    if s != [] {
      FilterTwice(s[1..], first, second, both);
      var rest := Filter(s[1..], first);
      if first(s[0]) {
        assert Filter(s, first) == [s[0]] + rest && ([s[0]] + rest)[1..] == rest;
      } else {
        assert Filter(s, first) == rest;
      }
    }
  }

  /** Filtering keeps exactly the copies it keeps any of. */
  lemma {:induction false} FilterPermuted<T>(s: seq<T>, keep: T -> bool)
    ensures forall x :: multiset(Filter(s, keep))[x] == if keep(x) then multiset(s)[x] else 0
  {
    if s != [] {
      FilterPermuted(s[1..], keep);
      assert s == [s[0]] + s[1..];
    }
  }

  lemma {:induction false} FilterNone<T>(s: seq<T>, keep: T -> bool)
    requires forall x | x in s :: !keep(x)
    ensures Filter(s, keep) == []
  {
    if s != [] {
      FilterNone(s[1..], keep);
    }
  }

  lemma {:induction false} FilterAll<T>(s: seq<T>, keep: T -> bool)
    requires forall x | x in s :: keep(x)
    ensures Filter(s, keep) == s
  {
    if s != [] {
      FilterAll(s[1..], keep);
    }
  }

  lemma {:induction false} FilterAgree<T>(s: seq<T>, one: T -> bool, other: T -> bool)
    requires forall x | x in s :: one(x) == other(x)
    ensures Filter(s, one) == Filter(s, other)
  {
    if s != [] {
      FilterAgree(s[1..], one, other);
    }
  }

  lemma {:induction false} FilterKeepsAll<T>(s: seq<T>, keep: T -> bool)
    ensures Filter(s, keep) == s <==> forall x | x in s :: keep(x)
  {
    FilterMembers(s, keep);
    if forall x | x in s :: keep(x) {
      FilterAll(s, keep);
    }
  }
}
