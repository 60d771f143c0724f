/** Byte budgets: the greedy packer, the re-measured view, and one attempt's evidence registry.

    Sizes are any natural-valued functions and views any value a `build` function returns, so what is
    proved holds for real JSON bytes too. Omitted counts per category are a multiset of categories. */
module Evidence {
  import opened Contracts
  import opened Ordering

  // Counting and selecting.

  function Categories<T, C>(s: seq<T>, category: T -> C): multiset<C> {
    if s == [] then multiset{} else multiset{category(s[0])} + Categories(s[1..], category)
  }

  function Sizes<T>(s: seq<T>, size: T -> nat): nat {
    if s == [] then 0 else size(s[0]) + Sizes(s[1..], size)
  }

  /** The items whose mask is set, in order. */
  function Chosen<T>(s: seq<T>, mask: seq<bool>): seq<T>
    requires |s| == |mask|
  {
    if s == [] then [] else (if mask[0] then [s[0]] else []) + Chosen(s[1..], mask[1..])
  }

  lemma {:induction false} CategoriesAppend<T, C>(s: seq<T>, t: seq<T>, category: T -> C)
    ensures Categories(s + t, category) == Categories(s, category) + Categories(t, category)
  {
    if s == [] {
      assert s + t == t;
    } else {
      assert (s + t)[1..] == s[1..] + t;
      CategoriesAppend(s[1..], t, category);
    }
  }

  lemma SplitAround<T>(t: seq<T>, i: nat)
    requires i < |t|
    ensures t == t[..i] + ([t[i]] + t[i + 1..])
    ensures multiset(t) == multiset(t[..i] + t[i + 1..]) + multiset{t[i]}
  {
    assert t == t[..i] + ([t[i]] + t[i + 1..]);
  }

  lemma {:induction false} CategoriesPermuted<T, C>(s: seq<T>, t: seq<T>, category: T -> C)
    requires multiset(s) == multiset(t)
    ensures Categories(s, category) == Categories(t, category)
    decreases |s|
  {
    if s == [] {
      assert |multiset(t)| == 0;
    } else {
      assert s[0] in multiset(t);
      var i :| 0 <= i < |t| && t[i] == s[0];
      var rest := t[..i] + t[i + 1..];
      SplitAround(t, i);
      SplitAround(s, 0);
      assert s[..0] + s[0 + 1..] == s[1..];
      Cancelled(multiset(rest), multiset(s[1..]), s[0]);
      CategoriesPermuted(s[1..], rest, category);
      CategoriesAppend(t[..i], t[i + 1..], category);
      CategoriesAppend(t[..i], [t[i]] + t[i + 1..], category);
    }
  }

  lemma {:induction false} SizesAppend<T>(s: seq<T>, x: T, size: T -> nat)
    ensures Sizes(s + [x], size) == Sizes(s, size) + size(x)
  {
    if s != [] {
      assert (s + [x])[1..] == s[1..] + [x];
      SizesAppend(s[1..], x, size);
    }
  }

  lemma {:induction false} ChosenAppend<T>(s: seq<T>, mask: seq<bool>, x: T, bit: bool)
    requires |s| == |mask|
    ensures Chosen(s + [x], mask + [bit]) == Chosen(s, mask) + (if bit then [x] else [])
  {
    if s != [] {
      assert (s + [x])[1..] == s[1..] + [x] && (mask + [bit])[1..] == mask[1..] + [bit];
      ChosenAppend(s[1..], mask[1..], x, bit);
    }
  }

  lemma CategoriesOne<T, C>(item: T, category: T -> C)
    ensures Categories([item], category) == multiset{category(item)}
  {
    assert [item][1..] == [];
  }

  /** Taking one counted category out of what is left, with the later items still counted. */
  lemma CountStep<C>(everything: multiset<C>, kept: multiset<C>, later: multiset<C>, x: C)
    requires kept + (multiset{x} + later) <= everything
    ensures everything - kept - multiset{x} == everything - (kept + multiset{x})
    ensures everything - kept - multiset{x} + multiset{x} == everything - kept
    ensures kept + multiset{x} + later <= everything && kept + later <= everything
  {
    assert forall c :: (kept + (multiset{x} + later))[c] <= everything[c];
  }

  // The packer.

  datatype BudgetError = BudgetError

  datatype Packed<T, C> = Packed(kept: seq<T>, omitted: multiset<C>)

  /** Item `j` fits the space its predecessors left, while everything else is still counted as omitted. */
  ghost predicate Fits<T, C>(ordered: seq<T>, mask: seq<bool>, j: nat, budget: int, category: T -> C,
                             overhead: (multiset<C>, nat) -> int, size: T -> nat)
    requires j < |ordered| && j <= |mask|
  {
    var before := Chosen(ordered[..j], mask[..j]);
    var counted := Categories(ordered, category) - Categories(before, category) - multiset{category(ordered[j])};
    Sizes(before, size) + size(ordered[j]) + overhead(counted, |before| + 1) <= budget
  }

  /** The greedy choice: an item is kept exactly when it fits. */
  ghost predicate Greedy<T, C>(ordered: seq<T>, mask: seq<bool>, budget: int, category: T -> C,
                               overhead: (multiset<C>, nat) -> int, size: T -> nat)
  {
    && |mask| <= |ordered|
    && forall j | 0 <= j < |mask| :: mask[j] <==> Fits(ordered, mask, j, budget, category, overhead, size)
  }

  lemma FitsPrefix<T, C>(ordered: seq<T>, mask: seq<bool>, bit: bool, j: nat, budget: int, category: T -> C,
                         overhead: (multiset<C>, nat) -> int, size: T -> nat)
    requires j <= |mask| && j < |ordered|
    ensures Fits(ordered, mask + [bit], j, budget, category, overhead, size)
         == Fits(ordered, mask, j, budget, category, overhead, size)
  {
    assert (mask + [bit])[..j] == mask[..j];
  }

  lemma GreedyExtends<T, C>(ordered: seq<T>, mask: seq<bool>, bit: bool, budget: int, category: T -> C,
                            overhead: (multiset<C>, nat) -> int, size: T -> nat)
    requires Greedy(ordered, mask, budget, category, overhead, size) && |mask| < |ordered|
    requires bit <==> Fits(ordered, mask, |mask|, budget, category, overhead, size)
    ensures Greedy(ordered, mask + [bit], budget, category, overhead, size)
  {
    forall j | 0 <= j <= |mask|
      ensures (mask + [bit])[j] <==> Fits(ordered, mask + [bit], j, budget, category, overhead, size)
    {
      FitsPrefix(ordered, mask, bit, j, budget, category, overhead, size);
    }
  }

  /** What is kept and counted after looking at the first `|mask|` items. */
  ghost predicate Tallied<T, C>(ordered: seq<T>, mask: seq<bool>, kept: seq<T>, used: int, omitted: multiset<C>,
                                category: T -> C, size: T -> nat)
  {
    && |mask| <= |ordered|
    && kept == Chosen(ordered[..|mask|], mask) && used == Sizes(kept, size)
    && omitted == Categories(ordered, category) - Categories(kept, category)
    && Categories(kept, category) + Categories(ordered[|mask|..], category) <= Categories(ordered, category)
  }

  lemma TallyStep<T, C>(ordered: seq<T>, mask: seq<bool>, kept: seq<T>, used: int, omitted: multiset<C>,
                        category: T -> C, size: T -> nat, fits: bool)
    requires Tallied(ordered, mask, kept, used, omitted, category, size) && |mask| < |ordered|
    ensures var item := ordered[|mask|];
            && omitted - multiset{category(item)} + multiset{category(item)} == omitted
            && (if fits then Tallied(ordered, mask + [true], kept + [item], used + size(item),
                                     omitted - multiset{category(item)}, category, size)
                else Tallied(ordered, mask + [false], kept, used, omitted, category, size))
  {
    var i := |mask|;
    var item := ordered[i];
    assert ordered[..i + 1] == ordered[..i] + [item];
    assert ordered[i..][1..] == ordered[i + 1..];
    CountStep(Categories(ordered, category), Categories(kept, category), Categories(ordered[i + 1..], category),
              category(item));
    ChosenAppend(ordered[..i], mask, item, fits);
    if fits {
      SizesAppend(kept, item, size);
      CategoriesAppend(kept, [item], category);
      CategoriesOne(item, category);
    } else {
      assert kept + [] == kept;
    }
  }

  ghost predicate PackState<T, C>(ordered: seq<T>, mask: seq<bool>, kept: seq<T>, used: int, omitted: multiset<C>,
                                  budget: int, category: T -> C, overhead: (multiset<C>, nat) -> int,
                                  size: T -> nat)
  {
    && Tallied(ordered, mask, kept, used, omitted, category, size)
    && Greedy(ordered, mask, budget, category, overhead, size)
    && used + overhead(omitted, |kept|) <= budget
  }

  lemma PackStart<T, C>(ordered: seq<T>, budget: int, category: T -> C, overhead: (multiset<C>, nat) -> int,
                        size: T -> nat)
    requires overhead(Categories(ordered, category), 0) <= budget
    ensures PackState(ordered, [], [], 0, Categories(ordered, category), budget, category, overhead, size)
  {
    assert ordered[0..] == ordered && ordered[..0] == [];
  }

  /** Looking at one more item: it moves to the kept items when it fits, and stays counted otherwise. */
  lemma PackStep<T, C>(ordered: seq<T>, mask: seq<bool>, kept: seq<T>, used: int, omitted: multiset<C>,
                       budget: int, category: T -> C, overhead: (multiset<C>, nat) -> int, size: T -> nat,
                       fits: bool)
    requires PackState(ordered, mask, kept, used, omitted, budget, category, overhead, size)
    requires |mask| < |ordered|
    requires var item := ordered[|mask|];
             fits <==> used + size(item) + overhead(omitted - multiset{category(item)}, |kept| + 1) <= budget
    ensures var item := ordered[|mask|];
            && omitted - multiset{category(item)} + multiset{category(item)} == omitted
            && (if fits then PackState(ordered, mask + [true], kept + [item], used + size(item),
                                       omitted - multiset{category(item)}, budget, category, overhead, size)
                else PackState(ordered, mask + [false], kept, used, omitted, budget, category, overhead, size))
  {
    assert mask[..|mask|] == mask;
    GreedyExtends(ordered, mask, fits, budget, category, overhead, size);
    TallyStep(ordered, mask, kept, used, omitted, category, size, fits);
  }

  lemma PackDone<T, C>(ordered: seq<T>, mask: seq<bool>, kept: seq<T>, used: int, omitted: multiset<C>,
                       budget: int, category: T -> C, overhead: (multiset<C>, nat) -> int, size: T -> nat)
    requires PackState(ordered, mask, kept, used, omitted, budget, category, overhead, size)
    requires |mask| == |ordered|
    ensures PackedWithin(Packed(kept, omitted), ordered, mask, budget, category, overhead, size)
    ensures Categories(kept, category) + omitted == Categories(ordered, category)
  {
    assert ordered[..|mask|] == ordered;
  }

  /** Keep items in priority order while they fit, and count the rest per category. */
  method Pack<T(!new), C(==)>(items: seq<T>, budget: int, leq: (T, T) -> bool, category: T -> C,
                              overhead: (multiset<C>, nat) -> int, size: T -> nat)
    returns (r: Result<Packed<T, C>, BudgetError>, ghost mask: seq<bool>)
    requires Total(leq)
    ensures r.Err? <==> overhead(Categories(items, category), 0) > budget
    ensures r.Ok? ==> PackedWithin(r.value, Prioritized(items, leq), mask, budget, category, overhead, size)
    ensures r.Ok? ==> Categories(r.value.kept, category) + r.value.omitted == Categories(items, category)
  {
    var ordered := Prioritized(items, leq);
    PrioritizedOrdered(items, leq);
    CategoriesPermuted(ordered, items, category);
    mask := [];
    var omitted := Categories(ordered, category);
    if overhead(omitted, 0) > budget {
      return Err(BudgetError), mask;
    }
    var kept: seq<T> := [];
    var used := 0;
    var i := 0;
    PackStart(ordered, budget, category, overhead, size);
    while i < |ordered|
      invariant |mask| == i <= |ordered|
      invariant PackState(ordered, mask, kept, used, omitted, budget, category, overhead, size)
    {
      var item := ordered[i];
      var name := category(item);
      ghost var before := omitted;
      omitted := omitted - multiset{name};
      var itemSize := size(item);
      var fits := used + itemSize + overhead(omitted, |kept| + 1) <= budget;
      PackStep(ordered, mask, kept, used, before, budget, category, overhead, size, fits);
      if fits {
        kept := kept + [item];
        used := used + itemSize;
      } else {
        omitted := omitted + multiset{name};
      }
      mask := mask + [fits];
      i := i + 1;
    }
    PackDone(ordered, mask, kept, used, omitted, budget, category, overhead, size);
    r := Ok(Packed(kept, omitted));
  }

  /** The packer's result: the greedy choice over the ordered items, everything else counted, within the budget. */
  ghost predicate PackedWithin<T, C>(packed: Packed<T, C>, ordered: seq<T>, mask: seq<bool>, budget: int,
                                     category: T -> C, overhead: (multiset<C>, nat) -> int, size: T -> nat)
  {
    && |mask| == |ordered|
    && Greedy(ordered, mask, budget, category, overhead, size)
    && packed.kept == Chosen(ordered, mask)
    && packed.omitted == Categories(ordered, category) - Categories(packed.kept, category)
    && Sizes(packed.kept, size) + overhead(packed.omitted, |packed.kept|) <= budget
  }

  // The view: built from what is packed, re-measured, and cut from the tail until it fits.

  /** The view of these kept items, with every other item of `items` counted. */
  ghost predicate ViewOf<T, C, V>(view: V, kept: seq<T>, items: seq<T>, category: T -> C,
                                  build: (seq<T>, multiset<C>) -> V)
  {
    && Categories(kept, category) <= Categories(items, category)
    && view == build(kept, Categories(items, category) - Categories(kept, category))
  }

  /** The overhead estimate `Bounded` packs with: the wrapper as it is emitted, the counts and the separators. */
  function Overhead<T, C, V>(everything: multiset<C>, build: (seq<T>, multiset<C>) -> V,
                             viewSize: V -> nat, countsSize: multiset<C> -> nat): (multiset<C>, nat) -> int
  {
    var whole := viewSize(build([], multiset{})) - countsSize(multiset{});
    var digest := viewSize(build([], everything)) - countsSize(everything);
    (omitted: multiset<C>, kept: nat) =>
      (if omitted == multiset{} then whole else digest) + countsSize(omitted) + (if kept > 0 then kept - 1 else 0)
  }

  /** The longest prefix of `packed` whose view fits, everything else being counted. */
  ghost predicate LongestFitting<T, C, V>(kept: seq<T>, packed: seq<T>, everything: multiset<C>, budget: int,
                                          category: T -> C, build: (seq<T>, multiset<C>) -> V, viewSize: V -> nat)
  {
    && kept <= packed
    && forall n | |kept| < n <= |packed| ::
         viewSize(build(packed[..n], everything - Categories(packed[..n], category))) > budget
  }

  /** What a bounded view keeps: the longest fitting prefix of what the packer keeps. */
  ghost predicate BoundedAs<T, C, V>(kept: seq<T>, packed: Packed<T, C>, mask: seq<bool>, items: seq<T>, budget: int,
                                     leq: (T, T) -> bool, category: T -> C, build: (seq<T>, multiset<C>) -> V,
                                     viewSize: V -> nat, countsSize: multiset<C> -> nat, size: T -> nat)
  {
    && LongestFitting(kept, packed.kept, Categories(items, category), budget, category, build, viewSize)
    && PackedWithin(packed, Prioritized(items, leq), mask, budget, category,
                    Overhead(Categories(items, category), build, viewSize, countsSize), size)
  }

  ghost predicate BoundedKeeps<T(!new), C(!new), V>(kept: seq<T>, items: seq<T>, budget: int, leq: (T, T) -> bool,
                                                    category: T -> C, build: (seq<T>, multiset<C>) -> V,
                                                    viewSize: V -> nat, countsSize: multiset<C> -> nat, size: T -> nat)
  {
    exists packed: Packed<T, C>, mask ::
      BoundedAs(kept, packed, mask, items, budget, leq, category, build, viewSize, countsSize, size)
  }

  /** Popping the lowest-priority kept item moves it into the counts. */
  lemma PopStep<T, C, V>(shown: seq<T>, packed: seq<T>, everything: multiset<C>, budget: int,
                         category: T -> C, build: (seq<T>, multiset<C>) -> V, viewSize: V -> nat)
    requires shown != [] && Categories(shown, category) <= everything
    requires LongestFitting(shown, packed, everything, budget, category, build, viewSize)
    requires viewSize(build(shown, everything - Categories(shown, category))) > budget
    ensures LongestFitting(shown[..|shown| - 1], packed, everything, budget, category, build, viewSize)
  {
    assert packed[..|shown|] == shown;
    forall n | |shown| - 1 < n <= |packed|
      ensures viewSize(build(packed[..n], everything - Categories(packed[..n], category))) > budget
    {
      if n > |shown| {
      } else {
        assert packed[..n] == shown;
      }
    }
  }

  lemma PopCounts<T, C>(shown: seq<T>, everything: multiset<C>, category: T -> C)
    requires shown != [] && Categories(shown, category) <= everything
    ensures var popped := shown[..|shown| - 1];
            && Categories(popped, category) <= everything
            && everything - Categories(popped, category)
               == everything - Categories(shown, category) + multiset{category(shown[|shown| - 1])}
  {
    var last := shown[|shown| - 1];
    assert shown == shown[..|shown| - 1] + [last];
    CategoriesAppend(shown[..|shown| - 1], [last], category);
    CategoriesOne(last, category);
  }

  /** Build a view within `budget`; the only failure is a count-only digest that cannot fit at all. */
  method Bounded<T(!new), C(==), V>(items: seq<T>, budget: int, leq: (T, T) -> bool, category: T -> C,
                                    build: (seq<T>, multiset<C>) -> V, viewSize: V -> nat,
                                    countsSize: multiset<C> -> nat, size: T -> nat)
    returns (r: Result<V, BudgetError>, ghost kept: seq<T>, ghost packed: Packed<T, C>, ghost mask: seq<bool>)
    requires Total(leq)
    ensures r.Err? <==> viewSize(build([], Categories(items, category))) > budget
    ensures r.Ok? ==> viewSize(r.value) <= budget
    ensures r.Ok? ==> ViewOf(r.value, kept, items, category, build)
    ensures r.Ok? ==> LongestFitting(kept, packed.kept, Categories(items, category), budget, category, build, viewSize)
    ensures r.Ok? ==> PackedWithin(packed, Prioritized(items, leq), mask, budget, category,
                                   Overhead(Categories(items, category), build, viewSize, countsSize), size)
  {
    var ordered := Prioritized(items, leq);
    PrioritizedOrdered(items, leq);
    PrioritizedFixed(ordered, leq);
    CategoriesPermuted(ordered, items, category);
    var everything := Categories(ordered, category);
    var overhead := Overhead(everything, build, viewSize, countsSize);
    kept, packed := [], Packed([], everything);
    var result;
    result, mask := Pack(ordered, budget, leq, category, overhead, size);
    if result.Err? {
      return Err(result.error), kept, packed, mask;
    }
    packed := result.value;
    var shown := result.value.kept;
    var left := result.value.omitted;
    var view := build(shown, left);
    assert left == everything - Categories(shown, category);
    while |shown| > 0 && viewSize(view) > budget
      invariant view == build(shown, left)
      invariant Categories(shown, category) <= everything && left == everything - Categories(shown, category)
      invariant LongestFitting(shown, packed.kept, everything, budget, category, build, viewSize)
      decreases |shown|
    {
      PopStep(shown, packed.kept, everything, budget, category, build, viewSize);
      PopCounts(shown, everything, category);
      left := left + multiset{category(shown[|shown| - 1])};
      shown := shown[..|shown| - 1];
      view := build(shown, left);
    }
    kept := shown;
    assert shown == [] ==> left == everything;
    r := Ok(view);
  }

  // The estimate.

  /** Serialized as a list is: a wrapper, which differs once anything is counted, the counts, the items and a separator
      between two of them. */
  ghost predicate Additive<T(!new), C(!new), V>(build: (seq<T>, multiset<C>) -> V, viewSize: V -> nat,
                                                countsSize: multiset<C> -> nat, size: T -> nat, whole: int, digest: int)
  {
    forall kept: seq<T>, omitted: multiset<C> ::
      viewSize(build(kept, omitted))
      == (if omitted == multiset{} then whole else digest) + countsSize(omitted) + Sizes(kept, size)
         + (if |kept| > 0 then |kept| - 1 else 0)
  }

  /** The overhead the packer is given is then exact: packed items and overhead are the size of the view. */
  lemma EstimateIsExact<T(!new), C(!new), V>(everything: multiset<C>, build: (seq<T>, multiset<C>) -> V,
                                             viewSize: V -> nat, countsSize: multiset<C> -> nat, size: T -> nat, whole: int,
                                             digest: int, kept: seq<T>, omitted: multiset<C>)
    requires Additive(build, viewSize, countsSize, size, whole, digest)
    requires everything != multiset{} || omitted == multiset{}
    ensures Sizes(kept, size) + Overhead(everything, build, viewSize, countsSize)(omitted, |kept|)
         == viewSize(build(kept, omitted))
  {
    assert viewSize(build([], multiset{})) == whole + countsSize(multiset{}) + Sizes<T>([], size);
    assert viewSize(build([], everything))
        == (if everything == multiset{} then whole else digest) + countsSize(everything) + Sizes<T>([], size);
  }

  /** So nothing packed is taken back: a bounded view keeps all the packer kept. */
  lemma NothingTakenBack<T(!new), C(!new), V>(kept: seq<T>, packed: Packed<T, C>, mask: seq<bool>, items: seq<T>,
                                              budget: int, leq: (T, T) -> bool, category: T -> C,
                                              build: (seq<T>, multiset<C>) -> V, viewSize: V -> nat,
                                              countsSize: multiset<C> -> nat, size: T -> nat, whole: int, digest: int)
    requires Additive(build, viewSize, countsSize, size, whole, digest) && Total(leq)
    requires BoundedAs(kept, packed, mask, items, budget, leq, category, build, viewSize, countsSize, size)
    ensures kept == packed.kept
  {
    var everything := Categories(items, category);
    PackedOf(packed, mask, items, budget, leq, category, Overhead(everything, build, viewSize, countsSize), size);
    EstimateIsExact(everything, build, viewSize, countsSize, size, whole, digest, packed.kept, packed.omitted);
    AllFits(kept, packed.kept, everything, budget, category, build, viewSize);
  }

  lemma PackedOf<T(!new), C>(packed: Packed<T, C>, mask: seq<bool>, items: seq<T>, budget: int, leq: (T, T) -> bool,
                             category: T -> C, overhead: (multiset<C>, nat) -> int, size: T -> nat)
    requires Total(leq) && PackedWithin(packed, Prioritized(items, leq), mask, budget, category, overhead, size)
    ensures packed.omitted == Categories(items, category) - Categories(packed.kept, category)
    ensures Sizes(packed.kept, size) + overhead(packed.omitted, |packed.kept|) <= budget
  {
    PrioritizedOrdered(items, leq);
    CategoriesPermuted(Prioritized(items, leq), items, category);
  }

  lemma AllFits<T, C, V>(kept: seq<T>, packed: seq<T>, everything: multiset<C>, budget: int, category: T -> C,
                         build: (seq<T>, multiset<C>) -> V, viewSize: V -> nat)
    requires LongestFitting(kept, packed, everything, budget, category, build, viewSize)
    requires viewSize(build(packed, everything - Categories(packed, category))) <= budget
    ensures kept == packed
  {
    assert packed[..|packed|] == packed;
  }
}
