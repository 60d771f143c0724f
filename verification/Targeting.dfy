/** Obligations and devices indexed by what their targets name, proved equal to scanning every one of them. */
module Targeting {
  import opened Contracts
  import opened Ordering
  import opened Obligations

  datatype Entry<T> = Entry(target: Target, item: T)

  function NamesDevice<T>(mac: Name): Entry<T> -> bool {
    (e: Entry<T>) => e.target.device == Some(mac)
  }

  function NamesSite<T>(site: Name): Entry<T> -> bool {
    (e: Entry<T>) => e.target.device == None && e.target.site == Some(site)
  }

  function ReachesRow<T>(row: Target): Entry<T> -> bool {
    (e: Entry<T>) => Reaches(e.target, row)
  }

  function ByDevice<T>(row: Target): Entry<T> -> bool {
    (e: Entry<T>) => e.target.device.Some? && Reaches(e.target, row)
  }

  function BySite<T>(row: Target): Entry<T> -> bool {
    (e: Entry<T>) => e.target.device.None? && Reaches(e.target, row)
  }

  function At<T>(index: map<Name, seq<T>>, key: Option<Name>): seq<T> {
    if key.Some? && key.value in index then index[key.value] else []
  }

  /** The direct definition: every entry whose target reaches the row, those naming a device first. */
  function Scan<T>(entries: seq<Entry<T>>, row: Target): (out: seq<Entry<T>>) {
    Filter(entries, ByDevice(row)) + Filter(entries, BySite(row))
  }

  lemma ScanMembers<T>(entries: seq<Entry<T>>, row: Target)
    ensures forall e :: e in Scan(entries, row) <==> e in entries && Reaches(e.target, row)
  {
    FilterMembers(entries, ByDevice(row));
    FilterMembers(entries, BySite(row));
  }

  ghost predicate ByMac<T>(index: map<Name, seq<Entry<T>>>, entries: seq<Entry<T>>) {
    forall mac: Name :: At(index, Some(mac)) == Filter(entries, NamesDevice(mac))
  }

  ghost predicate AtSites<T>(index: map<Name, seq<Entry<T>>>, entries: seq<Entry<T>>) {
    forall site: Name :: At(index, Some(site)) == Filter(entries, NamesSite(site))
  }

  lemma ByMacStep<T>(index: map<Name, seq<Entry<T>>>, entries: seq<Entry<T>>, e: Entry<T>)
    requires ByMac(index, entries)
    ensures ByMac(if e.target.device.Some? then index[e.target.device.value := At(index, e.target.device) + [e]] else index,
                  entries + [e])
  {
    forall mac: Name {
      FilterSnoc(entries, e, NamesDevice(mac));
    }
  }

  lemma AtSitesStep<T>(index: map<Name, seq<Entry<T>>>, entries: seq<Entry<T>>, e: Entry<T>)
    requires AtSites(index, entries)
    ensures AtSites(if e.target.device == None && e.target.site.Some?
                    then index[e.target.site.value := At(index, e.target.site) + [e]] else index,
                    entries + [e])
  {
    forall site: Name {
      FilterSnoc(entries, e, NamesSite(site));
    }
  }

  /** Looking an entry up by the row's device loses nothing a scan finds. */
  lemma DeviceLookup<T>(entries: seq<Entry<T>>, index: map<Name, seq<Entry<T>>>, row: Target)
    requires ByMac(index, entries)
    ensures Filter(At(index, row.device), ReachesRow(row)) == Filter(entries, ByDevice(row))
  {
    if row.device.Some? {
      FilterTwice(entries, NamesDevice(row.device.value), ReachesRow(row), ByDevice(row));
    } else {
      FilterNone(entries, ByDevice(row));
    }
  }

  lemma SiteLookup<T>(entries: seq<Entry<T>>, index: map<Name, seq<Entry<T>>>, row: Target)
    requires AtSites(index, entries)
    ensures Filter(At(index, row.site), ReachesRow(row)) == Filter(entries, BySite(row))
  {
    if row.site.Some? {
      FilterTwice(entries, NamesSite(row.site.value), ReachesRow(row), BySite(row));
    } else {
      FilterNone(entries, BySite(row));
    }
  }

  /** Obligations or exclusions indexed by the device or site their target names. */
  class ByTarget<T> {
    var devices: map<Name, seq<Entry<T>>>
    var sites: map<Name, seq<Entry<T>>>
    // Everything added, in order.
    ghost var entries: seq<Entry<T>>

    ghost predicate Valid()
      reads this
    {
      ByMac(devices, entries) && AtSites(sites, entries)
    }

    constructor ()
      ensures Valid() && entries == []
    {
      devices, sites, entries := map[], map[], [];
    }

    method Add(target: Target, item: T)
      requires Valid()
      modifies this
      ensures Valid() && entries == old(entries) + [Entry(target, item)]
    {
      var entry := Entry(target, item);
      ByMacStep(devices, entries, entry);
      AtSitesStep(sites, entries, entry);
      entries := entries + [entry];
      if target.device.Some? {
        devices := devices[target.device.value := At(devices, target.device) + [entry]];
      } else if target.site.Some? {
        sites := sites[target.site.value := At(sites, target.site) + [entry]];
      }
    }

    /** The entries reaching a row: the indexed answer is the scan's. */
    function Reaching(row: Target): (out: seq<Entry<T>>)
      requires Valid()
      reads this
      ensures out == Scan(entries, row)
    {
      DeviceLookup(entries, devices, row);
      SiteLookup(entries, sites, row);
      FilterAppend(At(devices, row.device), At(sites, row.site), ReachesRow(row));
      Filter(At(devices, row.device) + At(sites, row.site), ReachesRow(row))
    }
  }

  // Row devices.

  /** The last row target naming each device. */
  function LastTargets(rows: seq<Target>): map<Name, Target> {
    if rows == [] then map[]
    else
      var last := rows[|rows| - 1];
      var before := LastTargets(rows[..|rows| - 1]);
      if last.device.Some? then before[last.device.value := last] else before
  }

  lemma {:induction false} LastTargetsName(rows: seq<Target>)
    ensures forall mac | mac in LastTargets(rows) ::
              LastTargets(rows)[mac] in rows && LastTargets(rows)[mac].device == Some(mac)
    ensures forall t | t in rows && t.device.Some? :: t.device.value in LastTargets(rows)
  {
    if rows != [] {
      var before := rows[..|rows| - 1];
      LastTargetsName(before);
      assert rows == before + [rows[|rows| - 1]];
    }
  }

  function AtSite(targets: map<Name, Target>, site: Name): Name -> bool {
    (mac: Name) => mac in targets && targets[mac].site == Some(site)
  }

  function ReachedBy(targets: map<Name, Target>, target: Target): Name -> bool {
    (mac: Name) => mac in targets && Reaches(target, targets[mac])
  }

  method TargetsByMac(rows: seq<Target>) returns (targets: map<Name, Target>, seen: seq<Name>)
    ensures targets == LastTargets(rows)
    ensures Distinct(seen) && forall mac :: mac in seen <==> mac in targets
  {
    targets, seen := map[], [];
    for i := 0 to |rows|
      invariant targets == LastTargets(rows[..i])
      invariant Distinct(seen) && forall mac :: mac in seen <==> mac in targets
    {
      assert rows[..i + 1][..i] == rows[..i];
      var target := rows[i];
      if target.device.Some? {
        seen := if target.device.value in targets then seen else seen + [target.device.value];
        targets := targets[target.device.value := target];
      }
    }
    Taken(rows);
  }

  ghost predicate SiteIndex(bySite: map<Name, seq<Name>>, macs: seq<Name>, targets: map<Name, Target>) {
    forall site: Name :: At(bySite, Some(site)) == Filter(macs, AtSite(targets, site))
  }

  function PutMac(bySite: map<Name, seq<Name>>, site: Option<Name>, mac: Name): map<Name, seq<Name>> {
    if site.Some? then bySite[site.value := At(bySite, site) + [mac]] else bySite
  }

  lemma SiteIndexStep(bySite: map<Name, seq<Name>>, macs: seq<Name>, targets: map<Name, Target>, mac: Name)
    requires SiteIndex(bySite, macs, targets) && mac in targets
    ensures SiteIndex(PutMac(bySite, targets[mac].site, mac), macs + [mac], targets)
  {
    forall site: Name
      ensures At(PutMac(bySite, targets[mac].site, mac), Some(site)) == Filter(macs + [mac], AtSite(targets, site))
    {
      FilterSnoc(macs, mac, AtSite(targets, site));
      assert At(bySite, Some(site)) == Filter(macs, AtSite(targets, site));
    }
  }

  method MacsBySite(macs: seq<Name>, targets: map<Name, Target>) returns (bySite: map<Name, seq<Name>>)
    requires forall mac | mac in macs :: mac in targets
    ensures SiteIndex(bySite, macs, targets)
  {
    bySite := map[];
    for i := 0 to |macs|
      invariant SiteIndex(bySite, macs[..i], targets)
    {
      Taking(macs, i);
      SiteIndexStep(bySite, macs[..i], targets, macs[i]);
      bySite := PutMac(bySite, targets[macs[i]].site, macs[i]);
    }
    Taken(macs);
  }

  /** Every device a ledger row targets, by MAC in order, and the row devices a target reaches. */
  class RowDevices {
    const targets: map<Name, Target>
    const macs: seq<Name>
    const bySite: map<Name, seq<Name>>
    ghost const rows: seq<Target>

    ghost predicate Valid() {
      && targets == LastTargets(rows)
      && (forall mac :: mac in macs <==> mac in targets)
      && Ascending(macs)
      && SiteIndex(bySite, macs, targets)
    }

    constructor (rows: seq<Target>)
      ensures Valid() && this.rows == rows
    {
      var targets, seen := TargetsByMac(rows);
      var macs := SortedNames(seen);
      var bySite := MacsBySite(macs, targets);
      this.rows := rows;
      this.targets, this.macs, this.bySite := targets, macs, bySite;
    }

    /** The row devices `target` reaches: the indexed answer is a scan of every row device, in order. */
    function Reached(target: Target): (out: seq<Name>)
      requires Valid()
      ensures out == Filter(macs, ReachedBy(targets, target))
    {
      if target.device.Some? then
        var mac := target.device.value;
        LastTargetsName(rows);
        DeviceReached(macs, targets, target);
        Filter(if mac in targets then [mac] else [], ReachedBy(targets, target))
      else if target.site.Some? then
        FilterTwice(macs, AtSite(targets, target.site.value), ReachedBy(targets, target), ReachedBy(targets, target));
        Filter(At(bySite, target.site), ReachedBy(targets, target))
      else
        FilterNone(macs, ReachedBy(targets, target));
        []
    }
  }

  lemma {:induction false} OnlyOne(macs: seq<Name>, mac: Name, keep: Name -> bool)
    requires forall i, j | 0 <= i < j < |macs| :: macs[i] != macs[j]
    requires forall other | other in macs && keep(other) :: other == mac
    ensures Filter(macs, keep) == if mac in macs && keep(mac) then [mac] else []
  {
    if macs != [] {
      assert forall k | 0 <= k < |macs[1..]| :: macs[1..][k] == macs[k + 1];
      OnlyOne(macs[1..], mac, keep);
      assert mac in macs <==> mac == macs[0] || mac in macs[1..];
    }
  }

  /** A target naming a device reaches at most that row device. */
  lemma DeviceReached(macs: seq<Name>, targets: map<Name, Target>, target: Target)
    requires target.device.Some?
    requires forall mac :: mac in macs <==> mac in targets
    requires forall i, j | 0 <= i < j < |macs| :: macs[i] != macs[j]
    requires forall mac | mac in targets :: targets[mac].device == Some(mac)
    ensures var mac := target.device.value;
            Filter(if mac in targets then [mac] else [], ReachedBy(targets, target))
            == Filter(macs, ReachedBy(targets, target))
  {
    var mac := target.device.value;
    OnlyOne(macs, mac, ReachedBy(targets, target));
    if mac in targets {
      OnlyOne([mac], mac, ReachedBy(targets, target));
    }
  }
}
