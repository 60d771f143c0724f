/** Optimistic projection writes: any number of rebuilds of one change group, each reading the group and then its sources
    and writing only if nobody else has since.

    A picture is the version of each source a projection was made from; source versions only grow. */
module ChangeGroups {
  import opened Contracts
  import opened Ordering

  const PROJECTION_ATTEMPTS: nat := 3

  type Picture = seq<nat>

  /** The stored group: a revision field older groups lack, the picture its projection was made from, and its sites. */
  datatype Group = Group(revision: Option<nat>, picture: Picture, sites: set<Name>)

  /** A group without the field counts as revision zero. */
  function RevisionOf(group: Group): nat {
    if group.revision.Some? then group.revision.value else 0
  }

  /** `revision_predicate`: what the conditional update matches. */
  predicate Matches(revision: Option<nat>, expected: nat) {
    if expected != 0 then revision == Some(expected) else revision == Some(0) || revision == None
  }

  /** The predicate matches exactly the groups whose revision is the expected one, missing field or not. */
  lemma MatchesExactly(group: Group, expected: nat)
    ensures Matches(group.revision, expected) <==> RevisionOf(group) == expected
  {
  }

  /** One rebuild in progress: what it read of the group, and each source it has read so far. */
  datatype Reading = Reading(expected: nat, sites: set<Name>, got: seq<Option<nat>>, found: set<Name>)

  datatype Rebuild = Idle | Working(attempt: nat, reading: Reading) | Finished(saved: bool)

  /** The stored group, the sources' current versions, and every rebuild. */
  datatype World = World(group: Group, sources: Picture, rebuilds: map<nat, Rebuild>, saves: nat)

  datatype Step =
    | AdvanceSource(k: nat, newer: nat)
    | ReadGroup(p: nat)
    | ReadSource(p: nat, k: nat, sites: set<Name>)
    | Save(p: nat)

  function Unread(n: nat): seq<Option<nat>> {
    seq(n, i requires 0 <= i < n => None)
  }

  predicate AllRead(got: seq<Option<nat>>) {
    forall k | 0 <= k < |got| :: got[k].Some?
  }

  function PictureOf(got: seq<Option<nat>>): Picture
    requires AllRead(got)
  {
    seq(|got|, k requires 0 <= k < |got| => got[k].value)
  }

  function RebuildAt(w: World, p: nat): Rebuild {
    if p in w.rebuilds then w.rebuilds[p] else Idle
  }

  predicate Guard(w: World, s: Step) {
    match s
    case AdvanceSource(k, _) => k < |w.sources|
    case ReadGroup(p) => RebuildAt(w, p).Idle?
    case ReadSource(p, k, _) => RebuildAt(w, p).Working? && k < |RebuildAt(w, p).reading.got|
    case Save(p) => RebuildAt(w, p).Working? && AllRead(RebuildAt(w, p).reading.got)
  }

  /** A fresh read of the group: its revision and sites, and no source read yet. */
  function Begin(w: World): Reading {
    Reading(RevisionOf(w.group), w.group.sites, Unread(|w.sources|), {})
  }

  /** Save compares and sets in one write; a lost race starts again from the sources, up to three attempts. */
  function Saved(w: World, p: nat): World
    requires Guard(w, Save(p))
  {
    var work := RebuildAt(w, p);
    var r := work.reading;
    if Matches(w.group.revision, r.expected) then
      World(Group(Some(RevisionOf(w.group) + 1), PictureOf(r.got), r.sites + r.found), w.sources,
            w.rebuilds[p := Finished(true)], w.saves + 1)
    else
      w.(rebuilds := w.rebuilds[p := if work.attempt < PROJECTION_ATTEMPTS
                                     then Working(work.attempt + 1, Begin(w)) else Finished(false)])
  }

  function Fire(w: World, s: Step): World
    requires Guard(w, s)
  {
    match s
    case AdvanceSource(k, newer) => w.(sources := w.sources[k := w.sources[k] + newer])
    case ReadGroup(p) => w.(rebuilds := w.rebuilds[p := Working(1, Begin(w))])
    case ReadSource(p, k, sites) =>
      var work := RebuildAt(w, p);
      var got := if k < |w.sources| then work.reading.got[k := Some(w.sources[k])] else work.reading.got;
      w.(rebuilds := w.rebuilds[p := work.(reading := work.reading.(got := got, found := work.reading.found + sites))])
    case Save(p) => Saved(w, p)
  }

  /** A stored group whose picture was made from sources no newer than they are. */
  predicate Init(w: World) {
    NoNewer(w.group.picture, w.sources) && w.rebuilds == map[] && w.saves == 0
  }

  predicate NoNewer(a: Picture, b: Picture) {
    |a| == |b| && forall k | 0 <= k < |a| :: a[k] <= b[k]
  }

  ghost predicate Next(w: World, w': World) {
    exists s :: StepTo(w, s, w')
  }

  predicate StepTo(w: World, s: Step, w': World) {
    Guard(w, s) && w' == Fire(w, s)
  }

  ghost predicate Behavior(b: seq<World>) {
    b != [] && Init(b[0]) && forall i {:trigger NextAt(b, i)} | 0 <= i < |b| - 1 :: NextAt(b, i)
  }

  ghost predicate NextAt(b: seq<World>, i: nat)
    requires i + 1 < |b|
  {
    Next(b[i], b[i + 1])
  }

  // What every step keeps.

  /** A reading that still expects the stored revision read the group after its last write, and each source after that:
      it has nothing older than the stored picture. */
  predicate Fresh(r: Reading, group: Group, sources: Picture) {
    && |r.got| == |sources| && r.expected <= RevisionOf(group)
    && (forall k | 0 <= k < |r.got| && r.got[k].Some? :: r.got[k].value <= sources[k])
    && (r.expected == RevisionOf(group) ==>
          && r.sites == group.sites
          && |group.picture| == |sources|
          && forall k | 0 <= k < |r.got| && r.got[k].Some? :: group.picture[k] <= r.got[k].value)
  }

  ghost predicate Inv(w: World) {
    && NoNewer(w.group.picture, w.sources)
    && forall p | p in w.rebuilds && w.rebuilds[p].Working? ::
         w.rebuilds[p].attempt <= PROJECTION_ATTEMPTS && Fresh(w.rebuilds[p].reading, w.group, w.sources)
  }

  lemma BeginFresh(w: World)
    requires NoNewer(w.group.picture, w.sources)
    ensures Fresh(Begin(w), w.group, w.sources)
  {
  }

  lemma AdvanceKeeps(w: World, k: nat, newer: nat)
    requires Inv(w) && k < |w.sources|
    ensures Inv(Fire(w, AdvanceSource(k, newer)))
  {
    var w' := Fire(w, AdvanceSource(k, newer));
    forall p | p in w'.rebuilds && w'.rebuilds[p].Working?
      ensures Fresh(w'.rebuilds[p].reading, w'.group, w'.sources)
    {
      assert Fresh(w.rebuilds[p].reading, w.group, w.sources);
    }
  }

  lemma ReadSourceKeeps(w: World, p: nat, k: nat, sites: set<Name>)
    requires Inv(w) && Guard(w, ReadSource(p, k, sites))
    ensures Inv(Fire(w, ReadSource(p, k, sites)))
  {
    assert Fresh(RebuildAt(w, p).reading, w.group, w.sources);
  }

  /** A successful save leaves every other rebuild under way expecting a revision that is no longer stored, so none of
      their current readings can be saved over it; a lost race writes nothing. */
  lemma SaveOutdatesOthers(w: World, p: nat)
    requires Inv(w) && Guard(w, Save(p))
    ensures var w' := Saved(w, p);
            if Matches(w.group.revision, RebuildAt(w, p).reading.expected)
            then forall q | q != p && RebuildAt(w', q).Working? ::
                   RebuildAt(w', q) == RebuildAt(w, q)
                   && RebuildAt(w', q).reading.expected < RevisionOf(w'.group)
                   && !Matches(w'.group.revision, RebuildAt(w', q).reading.expected)
            else w'.group == w.group && w'.saves == w.saves
  {
    forall q | q != p && RebuildAt(w, q).Working?
      ensures RebuildAt(w, q).reading.expected <= RevisionOf(w.group)
    {
      assert Fresh(w.rebuilds[q].reading, w.group, w.sources);
    }
    assert forall q | q != p :: RebuildAt(Saved(w, p), q) == RebuildAt(w, q);
  }

  lemma SaveKeeps(w: World, p: nat)
    requires Inv(w) && Guard(w, Save(p))
    ensures Inv(Saved(w, p))
  {
    var r := RebuildAt(w, p).reading;
    assert Fresh(r, w.group, w.sources);
    MatchesExactly(w.group, r.expected);
    BeginFresh(w);
    var w' := Saved(w, p);
    forall q | q in w'.rebuilds && w'.rebuilds[q].Working?
      ensures w'.rebuilds[q].attempt <= PROJECTION_ATTEMPTS && Fresh(w'.rebuilds[q].reading, w'.group, w'.sources)
    {
      if q != p {
        assert Fresh(w.rebuilds[q].reading, w.group, w.sources);
      }
    }
  }

  lemma StepKeeps(w: World, s: Step)
    requires Inv(w) && Guard(w, s)
    ensures Inv(Fire(w, s))
  {
    match s {
      case AdvanceSource(k, newer) => AdvanceKeeps(w, k, newer);
      case ReadGroup(p) => BeginFresh(w);
      case ReadSource(p, k, sites) => ReadSourceKeeps(w, p, k, sites);
      case Save(p) => SaveKeeps(w, p);
    }
  }

  /** The stored projection only ever moves forward: no picture older in any source, no site lost, and a revision for
      every write. */
  predicate Forward(a: World, b: World) {
    && NoNewer(a.group.picture, b.group.picture)
    && a.group.sites <= b.group.sites
    && RevisionOf(b.group) == RevisionOf(a.group) + (b.saves - a.saves)
    && a.saves <= b.saves
  }

  lemma StepForward(w: World, s: Step)
    requires Inv(w) && Guard(w, s)
    ensures Forward(w, Fire(w, s))
  {
    if s.Save? {
      var r := RebuildAt(w, s.p).reading;
      assert Fresh(r, w.group, w.sources);
      MatchesExactly(w.group, r.expected);
    }
  }

  lemma {:induction false} Reached(b: seq<World>, i: nat)
    requires Behavior(b) && i < |b|
    ensures Inv(b[i])
  {
    if i > 0 {
      Reached(b, i - 1);
      assert NextAt(b, i - 1);
      var s :| StepTo(b[i - 1], s, b[i]);
      StepKeeps(b[i - 1], s);
    }
  }

  /** For every interleaving of any number of rebuilds, the stored projection never moves back to an older picture of its
      sources, never forgets a site, and counts each of its writes. */
  lemma {:induction false} ProjectionNeverMovesBack(b: seq<World>, i: nat, j: nat)
    requires Behavior(b) && i <= j < |b|
    ensures Forward(b[i], b[j])
  {
    if i < j {
      ProjectionNeverMovesBack(b, i, j - 1);
      Reached(b, j - 1);
      assert NextAt(b, j - 1);
      var s :| StepTo(b[j - 1], s, b[j]);
      StepForward(b[j - 1], s);
    } else {
      Reached(b, i);
    }
  }

  /** A lost race means somebody else wrote since this rebuild read the group. */
  lemma LostRaceMeansAnotherWrite(b: seq<World>, i: nat, j: nat, p: nat)
    requires Behavior(b) && i <= j < |b|
    requires Guard(b[j], Save(p)) && RebuildAt(b[j], p).reading.expected == RevisionOf(b[i].group)
    requires Saved(b[j], p).saves == b[j].saves
    ensures b[i].saves < b[j].saves
  {
    ProjectionNeverMovesBack(b, i, j);
    MatchesExactly(b[j].group, RebuildAt(b[j], p).reading.expected);
  }

  /** Each attempt of a rebuild read a revision at least one later than the attempt before it. */
  predicate Behind(rebuild: Rebuild, start: Group, group: Group) {
    match rebuild
    case Idle => RevisionOf(start) <= RevisionOf(group)
    case Working(attempt, reading) =>
      1 <= attempt <= PROJECTION_ATTEMPTS && reading.expected >= RevisionOf(start) + attempt - 1
    case Finished(saved) => !saved ==> RevisionOf(group) >= RevisionOf(start) + PROJECTION_ATTEMPTS
  }

  lemma StepBehind(w: World, s: Step, p: nat, start: Group)
    requires Inv(w) && Guard(w, s) && Behind(RebuildAt(w, p), start, w.group)
    ensures Behind(RebuildAt(Fire(w, s), p), start, Fire(w, s).group)
  {
    StepForward(w, s);
    if s == Save(p) {
      var r := RebuildAt(w, p).reading;
      assert Fresh(r, w.group, w.sources);
      MatchesExactly(w.group, r.expected);
    }
  }

  lemma {:induction false} AttemptsFallBehind(b: seq<World>, i: nat, j: nat, p: nat)
    requires Behavior(b) && i <= j < |b| && RebuildAt(b[i], p).Idle?
    ensures Behind(RebuildAt(b[j], p), b[i].group, b[j].group)
  {
    if i < j {
      AttemptsFallBehind(b, i, j - 1, p);
      Reached(b, j - 1);
      assert NextAt(b, j - 1);
      var s :| StepTo(b[j - 1], s, b[j]);
      StepBehind(b[j - 1], s, p, b[i].group);
    }
  }

  /** A rebuild that gave up lost to three saves, all of them others': its own would have finished it. */
  lemma GivingUpMeansThreeSaves(b: seq<World>, i: nat, j: nat, p: nat)
    requires Behavior(b) && i <= j < |b|
    requires RebuildAt(b[i], p).Idle? && RebuildAt(b[j], p) == Finished(false)
    ensures b[j].saves >= b[i].saves + PROJECTION_ATTEMPTS
  {
    AttemptsFallBehind(b, i, j, p);
    ProjectionNeverMovesBack(b, i, j);
  }

  /** What a rebuild has read since it was idle is no older than the sources were then. */
  predicate ReadSince(rebuild: Rebuild, start: Picture, sources: Picture) {
    && NoNewer(start, sources)
    && (rebuild.Working? ==>
          && |rebuild.reading.got| == |start|
          && forall k | 0 <= k < |start| && rebuild.reading.got[k].Some? :: start[k] <= rebuild.reading.got[k].value)
  }

  lemma StepReadsSince(w: World, s: Step, p: nat, start: Picture)
    requires Guard(w, s) && ReadSince(RebuildAt(w, p), start, w.sources)
    ensures ReadSince(RebuildAt(Fire(w, s), p), start, Fire(w, s).sources)
  {
  }

  lemma {:induction false} ReadsAreRecent(b: seq<World>, i: nat, j: nat, p: nat)
    requires Behavior(b) && i <= j < |b| && RebuildAt(b[i], p).Idle?
    ensures ReadSince(RebuildAt(b[j], p), b[i].sources, b[j].sources)
  {
    if i < j {
      ReadsAreRecent(b, i, j - 1, p);
      assert NextAt(b, j - 1);
      var s :| StepTo(b[j - 1], s, b[j]);
      StepReadsSince(b[j - 1], s, p, b[i].sources);
    }
  }

  /** A rebuild that nobody overtakes: as long as nothing is saved since it began, it is on its first attempt and has not
      given up; and its save then succeeds, also on a group that lacks the revision field, with a picture no older than
      the sources were when it began and no newer than they are, keeping every site the group had. */
  lemma UncontendedRebuildSaves(b: seq<World>, i: nat, j: nat, p: nat)
    requires Behavior(b) && i <= j < |b| && RebuildAt(b[i], p).Idle? && b[j].saves == b[i].saves
    ensures RebuildAt(b[j], p) != Finished(false)
    ensures RebuildAt(b[j], p).Working? ==> RebuildAt(b[j], p).attempt == 1
    ensures Guard(b[j], Save(p)) ==>
              var after := Saved(b[j], p);
              && RebuildAt(after, p) == Finished(true) && after.saves == b[j].saves + 1
              && NoNewer(b[i].sources, after.group.picture) && NoNewer(after.group.picture, b[j].sources)
              && b[i].group.sites <= after.group.sites
  {
    AttemptsFallBehind(b, i, j, p);
    ProjectionNeverMovesBack(b, i, j);
    ReadsAreRecent(b, i, j, p);
    Reached(b, j);
    if RebuildAt(b[j], p).Working? {
      var r := RebuildAt(b[j], p).reading;
      assert Fresh(r, b[j].group, b[j].sources);
      MatchesExactly(b[j].group, r.expected);
    }
  }


  // The sites a rebuild found.

  predicate Found(rebuild: Rebuild, sites: set<Name>) {
    rebuild.Working? && sites <= rebuild.reading.found
  }

  /** The rebuild stays on one attempt through these worlds. */
  ghost predicate OneAttempt(b: seq<World>, i: nat, j: nat, p: nat, attempt: nat) {
    forall m | i <= m <= j < |b| :: RebuildAt(b[m], p).Working? && RebuildAt(b[m], p).attempt == attempt
  }

  lemma {:induction false} FoundStays(b: seq<World>, i: nat, j: nat, p: nat, attempt: nat, sites: set<Name>)
    requires Behavior(b) && i <= j < |b| && OneAttempt(b, i, j, p, attempt) && Found(RebuildAt(b[i], p), sites)
    ensures Found(RebuildAt(b[j], p), sites)
  {
    if i < j {
      FoundStays(b, i, j - 1, p, attempt, sites);
      assert NextAt(b, j - 1);
      var s :| StepTo(b[j - 1], s, b[j]);
    }
  }

  /** The step from world `i` reads these sites from a source. */
  ghost predicate ReadAt(b: seq<World>, i: nat, p: nat, k: nat, sites: set<Name>) {
    i + 1 < |b| && StepTo(b[i], ReadSource(p, k, sites), b[i + 1])
  }

  /** What a rebuild found in a source is stored for good once the attempt that found it saves. */
  lemma FoundSitesAreStored(b: seq<World>, i: nat, j: nat, l: nat, p: nat, k: nat, attempt: nat, sites: set<Name>)
    requires Behavior(b) && i < j < l < |b|
    requires ReadAt(b, i, p, k, sites) && OneAttempt(b, i + 1, j, p, attempt)
    requires StepTo(b[j], Save(p), b[j + 1]) && b[j + 1].saves > b[j].saves
    ensures sites <= b[l].group.sites
  {
    FoundStays(b, i + 1, j, p, attempt, sites);
    ProjectionNeverMovesBack(b, j + 1, l);
  }

  /** Some rebuild found the site in a source before world `j`. */
  ghost predicate FoundBefore(b: seq<World>, j: nat, site: Name) {
    exists i, p, k, sites :: 0 <= i < j && ReadAt(b, i, p, k, sites) && site in sites
  }

  /** The site is stored or in a rebuild's reading. */
  ghost predicate Shows(w: World, site: Name) {
    || site in w.group.sites
    || exists p :: RebuildAt(w, p).Working?
                   && (site in RebuildAt(w, p).reading.found || site in RebuildAt(w, p).reading.sites)
  }

  lemma SitesStep(w: World, s: Step, site: Name)
    requires Guard(w, s) && Shows(Fire(w, s), site)
    ensures Shows(w, site) || (s.ReadSource? && site in s.sites)
  {
    var next := Fire(w, s);
    if site !in next.group.sites {
      var p :| RebuildAt(next, p).Working?
               && (site in RebuildAt(next, p).reading.found || site in RebuildAt(next, p).reading.sites);
      assert RebuildAt(w, p) == RebuildAt(next, p) || s == ReadGroup(p) || s == Save(p) || (s.ReadSource? && s.p == p);
    } else if s.Save? {
      assert RebuildAt(w, s.p).Working?;
    }
  }

  /** And nothing else is: every stored site was there at first or was found by a rebuild. */
  lemma {:induction false} SitesWereFound(b: seq<World>, j: nat, site: Name)
    requires Behavior(b) && j < |b| && Shows(b[j], site)
    ensures site in b[0].group.sites || FoundBefore(b, j, site)
  {
    if j > 0 {
      assert NextAt(b, j - 1);
      var s :| StepTo(b[j - 1], s, b[j]);
      SitesStep(b[j - 1], s, site);
      if Shows(b[j - 1], site) {
        SitesWereFound(b, j - 1, site);
      } else {
        assert ReadAt(b, j - 1, s.p, s.k, s.sites);
      }
    }
  }

  /** A rebuild reads a source as it is, and nothing else changes of what it read. */
  lemma SourceIsRead(w: World, p: nat, k: nat, sites: set<Name>)
    requires Guard(w, ReadSource(p, k, sites)) && k < |w.sources|
    ensures var before, after := RebuildAt(w, p).reading.got, RebuildAt(Fire(w, ReadSource(p, k, sites)), p);
            && after.Working? && after.reading.got == before[k := Some(w.sources[k])]
            && after.reading.found == RebuildAt(w, p).reading.found + sites
            && Fire(w, ReadSource(p, k, sites)).group == w.group
  {
  }

  /** The stored group moves on only when some rebuild saves, and by one. */
  lemma SavesAreOwned(w: World, s: Step, p: nat)
    requires Guard(w, s) && RebuildAt(Fire(w, s), p) == Finished(true) && RebuildAt(w, p) != Finished(true)
    ensures s == Save(p) && Fire(w, s).saves == w.saves + 1
  {
  }

  /** A rebuild that reports success saved. */
  lemma {:induction false} FinishedMeansSaved(b: seq<World>, i: nat, j: nat, p: nat)
    requires Behavior(b) && i <= j < |b| && RebuildAt(b[i], p).Idle? && RebuildAt(b[j], p) == Finished(true)
    ensures b[i].saves < b[j].saves
  {
    assert NextAt(b, j - 1);
    var s :| StepTo(b[j - 1], s, b[j]);
    if RebuildAt(b[j - 1], p) == Finished(true) {
      FinishedMeansSaved(b, i, j - 1, p);
      ProjectionNeverMovesBack(b, j - 1, j);
    } else {
      SavesAreOwned(b[j - 1], s, p);
      ProjectionNeverMovesBack(b, i, j - 1);
    }
  }

  /** One that gave up read the group three times and lost to three saves. */
  lemma GivesUpAfterThree(b: seq<World>, i: nat, j: nat, p: nat)
    requires Behavior(b) && i <= j < |b| && RebuildAt(b[i], p).Idle?
    ensures RebuildAt(b[j], p).Working? ==> 1 <= RebuildAt(b[j], p).attempt <= 3
    ensures RebuildAt(b[j], p) == Finished(false) ==> b[j].saves >= b[i].saves + 3
  {
    AttemptsFallBehind(b, i, j, p);
    if RebuildAt(b[j], p) == Finished(false) {
      GivingUpMeansThreeSaves(b, i, j, p);
    }
  }
}
