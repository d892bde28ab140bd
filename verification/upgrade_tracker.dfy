/** The workshop upgrade tracker (src/components/UpgradeTracker.jsx): the list of all
    upgrades grouped by station with each group in level order, and the key under
    which a level's checkbox reads and writes its completion. */
module UpgradeTracker {
  import opened JsText
  import DataService
  import UserProgress

  type UpgradeRef = DataService.UpgradeRef

  /** The stations of `all`, each once, in the order they are first met: the order
      `Object.keys` lists the groups in. */
  function StationsOf(all: seq<UpgradeRef>): (r: seq<string>)
    ensures UserProgress.NoDuplicates(r)
  {
    if all == [] then []
    else
      var p := StationsOf(all[..|all| - 1]);
      var station := all[|all| - 1].station;
      if station in p then p else p + [station]
  }

  /** The upgrades of `all` at station `s`, in their order. */
  function OfStation(all: seq<UpgradeRef>, s: string): seq<UpgradeRef> {
    if all == [] then []
    else
      var last := all[|all| - 1];
      OfStation(all[..|all| - 1], s) + (if last.station == s then [last] else [])
  }

  /** A station is listed exactly when some upgrade names it. */
  lemma {:induction false} StationsOfMembers(all: seq<UpgradeRef>, s: string)
    ensures s in StationsOf(all) <==> exists u :: u in all && u.station == s
  {
    if all != [] {
      var init := all[..|all| - 1];
      assert forall u :: u in all <==> u in init || u == all[|all| - 1];
      StationsOfMembers(init, s);
    }
  }

  /** A group holds exactly the upgrades of its station. */
  lemma {:induction false} OfStationMembers(all: seq<UpgradeRef>, s: string, u: UpgradeRef)
    ensures u in OfStation(all, s) <==> u in all && u.station == s
  {
    if all != [] {
      var init := all[..|all| - 1];
      assert forall w :: w in all <==> w in init || w == all[|all| - 1];
      OfStationMembers(init, s, u);
    }
  }

  /** The group of a station no upgrade names is empty. */
  lemma {:induction false} OfUnlistedStation(all: seq<UpgradeRef>, s: string)
    requires s !in StationsOf(all)
    ensures OfStation(all, s) == []
  {
    if all != [] {
      var init := all[..|all| - 1];
      assert forall x :: x in StationsOf(init) ==> x in StationsOf(all);
      OfUnlistedStation(init, s);
    }
  }

  /** One more upgrade extends the station list when its station is new, and the
      group of its station by itself. */
  lemma GroupStep(all: seq<UpgradeRef>, i: int)
    requires 0 <= i < |all|
    ensures StationsOf(all[..i + 1]) ==
              if all[i].station in StationsOf(all[..i]) then StationsOf(all[..i]) else StationsOf(all[..i]) + [all[i].station]
    ensures forall s :: OfStation(all[..i + 1], s) == OfStation(all[..i], s) + (if all[i].station == s then [all[i]] else [])
  {
    assert all[..i + 1][..i] == all[..i];
  }

  predicate SortedByLevel(s: seq<UpgradeRef>) {
    forall i, j :: 0 <= i < j < |s| ==> s[i].level <= s[j].level
  }

  /** `x` placed before the first element of `s` whose level is not below its own. */
  function InsertByLevel(x: UpgradeRef, s: seq<UpgradeRef>): (r: seq<UpgradeRef>)
    ensures |r| == |s| + 1
    ensures multiset(r) == multiset(s) + multiset{x}
  {
    if s == [] || x.level <= s[0].level then [x] + s
    else
      assert s == [s[0]] + s[1..];
      [s[0]] + InsertByLevel(x, s[1..])
  }

  /** `group.sort((a, b) => a.level - b.level)`: the same upgrades, reordered. */
  function SortByLevel(s: seq<UpgradeRef>): (r: seq<UpgradeRef>)
    ensures |r| == |s|
    ensures multiset(r) == multiset(s)
  {
    if s == [] then []
    else
      assert s == [s[0]] + s[1..];
      InsertByLevel(s[0], SortByLevel(s[1..]))
  }

  /** Inserting into a list sorted by level keeps it sorted. */
  lemma {:induction false} InsertKeepsSorted(x: UpgradeRef, s: seq<UpgradeRef>)
    requires SortedByLevel(s)
    ensures SortedByLevel(InsertByLevel(x, s))
  {
    if s != [] && x.level > s[0].level {
      var rest := InsertByLevel(x, s[1..]);
      InsertKeepsSorted(x, s[1..]);
      forall k | 0 <= k < |rest|
        ensures s[0].level <= rest[k].level
      {
        assert rest[k] in multiset(rest);
        if rest[k] != x {
          assert rest[k] in multiset(s[1..]);
          var m :| 0 <= m < |s[1..]| && s[1..][m] == rest[k];
          assert s[m + 1] == rest[k];
        }
      }
    }
  }

  /** The sort leaves every group in ascending level order. */
  lemma {:induction false} SortByLevelSorted(s: seq<UpgradeRef>)
    ensures SortedByLevel(SortByLevel(s))
  {
    if s != [] {
      SortByLevelSorted(s[1..]);
      InsertKeepsSorted(s[0], SortByLevel(s[1..]));
    }
  }

  /** The grouping initializer: the upgrades collected per station, then each
      station's list sorted by level. */
  method GroupByStation(all: seq<UpgradeRef>) returns (stations: seq<string>, groups: map<string, seq<UpgradeRef>>)
    ensures stations == StationsOf(all)
    ensures forall s :: s in groups <==> s in stations
    ensures forall s :: s in groups ==> groups[s] == SortByLevel(OfStation(all, s))
  {
    stations, groups := CollectByStation(all);
    groups := SortGroups(stations, groups);
    forall s | s in groups
      ensures groups[s] == SortByLevel(OfStation(all, s))
    {
      var j :| 0 <= j < |stations| && stations[j] == s;
    }
  }

  /** What the `reduce` holds after the first `i` upgrades: each station seen so far
      listed once, in first-seen order, with exactly its upgrades so far. */
  ghost predicate Collected(all: seq<UpgradeRef>, i: int, stations: seq<string>, groups: map<string, seq<UpgradeRef>>)
    requires 0 <= i <= |all|
  {
    && stations == StationsOf(all[..i])
    && (forall s :: s in groups <==> s in stations)
    && (forall s :: s in groups ==> groups[s] == OfStation(all[..i], s))
  }

  /** One step of the `reduce` keeps `Collected`: the upgrade is appended to its
      station's list, which is created (and the station listed) on first sight. */
  lemma CollectStep(all: seq<UpgradeRef>, i: int, stations: seq<string>, groups: map<string, seq<UpgradeRef>>)
    requires 0 <= i < |all| && Collected(all, i, stations, groups)
    ensures var u := all[i];
      Collected(all, i + 1,
        if u.station in groups then stations else stations + [u.station],
        groups[u.station := if u.station in groups then groups[u.station] + [u] else [u]])
  {
    var u := all[i];
    GroupStep(all, i);
    var groups' := groups[u.station := if u.station in groups then groups[u.station] + [u] else [u]];
    if u.station !in groups {
      OfUnlistedStation(all[..i], u.station);
    }
    assert groups'[u.station] == OfStation(all[..i + 1], u.station);
    forall s | s in groups' && s != u.station
      ensures groups'[s] == OfStation(all[..i + 1], s)
    {
      assert groups'[s] == groups[s];
    }
  }

  /** The `reduce`: each upgrade appended to its station's list, the list created
      (and the station listed) on first sight. */
  method CollectByStation(all: seq<UpgradeRef>) returns (stations: seq<string>, groups: map<string, seq<UpgradeRef>>)
    ensures stations == StationsOf(all)
    ensures forall s :: s in groups <==> s in stations
    ensures forall s :: s in groups ==> groups[s] == OfStation(all, s)
  {
    stations, groups := [], map[];
    var i := 0;
    while i < |all|
      invariant 0 <= i <= |all|
      invariant Collected(all, i, stations, groups)
    {
      var u := all[i];
      CollectStep(all, i, stations, groups);
      if u.station !in groups {
        stations := stations + [u.station];
        groups := groups[u.station := [u]];
      } else {
        groups := groups[u.station := groups[u.station] + [u]];
      }
      i := i + 1;
    }
    assert all[..i] == all;
  }

  /** The `forEach` over `Object.keys(grouped)`: each group sorted by level in
      place. */
  method SortGroups(stations: seq<string>, groups0: map<string, seq<UpgradeRef>>) returns (groups: map<string, seq<UpgradeRef>>)
    requires UserProgress.NoDuplicates(stations)
    requires forall s :: s in groups0 <==> s in stations
    ensures groups.Keys == groups0.Keys
    ensures forall j :: 0 <= j < |stations| ==> groups[stations[j]] == SortByLevel(groups0[stations[j]])
  {
    groups := groups0;
    var k := 0;
    while k < |stations|
      invariant 0 <= k <= |stations|
      invariant groups.Keys == groups0.Keys
      invariant forall j :: 0 <= j < k ==> groups[stations[j]] == SortByLevel(groups0[stations[j]])
      invariant forall j :: k <= j < |stations| ==> groups[stations[j]] == groups0[stations[j]]
    {
      var station := stations[k];
      ghost var before := groups;
      groups := groups[station := SortByLevel(groups[station])];
      forall j | 0 <= j < |stations| && j != k
        ensures groups[stations[j]] == before[stations[j]]
      {
        assert stations[j] != station;
      }
      k := k + 1;
    }
  }

  /** Every upgrade is in the group of its own station, and every group is sorted by
      level and non-empty. */
  lemma GroupShape(all: seq<UpgradeRef>, u: UpgradeRef, s: string)
    requires u in all && s in StationsOf(all)
    ensures u in SortByLevel(OfStation(all, u.station))
    ensures SortedByLevel(SortByLevel(OfStation(all, s)))
    ensures |SortByLevel(OfStation(all, s))| >= 1
  {
    OfStationMembers(all, u.station, u);
    assert u in multiset(OfStation(all, u.station));
    StationsOfMembers(all, s);
    var w :| w in all && w.station == s;
    OfStationMembers(all, s, w);
    SortByLevelSorted(OfStation(all, s));
  }

  /** The number of upgrades of `all` at the stations listed. */
  function Total(stations: seq<string>, all: seq<UpgradeRef>): nat {
    if stations == [] then 0
    else Total(stations[..|stations| - 1], all) + |OfStation(all, stations[|stations| - 1])|
  }

  /** Adding one upgrade adds one to the count of a duplicate-free list of stations
      when the list holds its station, and nothing otherwise. */
  lemma {:induction false} TotalStep(stations: seq<string>, all: seq<UpgradeRef>, u: UpgradeRef)
    requires UserProgress.NoDuplicates(stations)
    ensures Total(stations, all + [u]) == Total(stations, all) + (if u.station in stations then 1 else 0)
  {
    if stations != [] {
      var init := stations[..|stations| - 1];
      var last := stations[|stations| - 1];
      assert forall x :: x in stations <==> x in init || x == last;
      TotalStep(init, all, u);
      assert (all + [u])[..|all|] == all;
    }
  }

  /** The groups together hold exactly as many entries as the input. */
  lemma {:induction false} TotalIsLength(all: seq<UpgradeRef>)
    ensures Total(StationsOf(all), all) == |all|
  {
    if all != [] {
      var init := all[..|all| - 1];
      var u := all[|all| - 1];
      assert all == init + [u];
      TotalIsLength(init);
      var p := StationsOf(init);
      TotalStep(p, init, u);
      if u.station !in p {
        assert StationsOf(all) == p + [u.station];
        assert (p + [u.station])[..|p|] == p;
        OfUnlistedStation(init, u.station);
        assert OfStation(all, u.station) == [u];
      } else {
        assert StationsOf(all) == p;
      }
    }
  }

  /** The sizes of the groups the tracker built add up to the number of upgrades. */
  function GroupTotal(stations: seq<string>, groups: map<string, seq<UpgradeRef>>): nat {
    if stations == [] then 0
    else
      var last := stations[|stations| - 1];
      GroupTotal(stations[..|stations| - 1], groups) + (if last in groups then |groups[last]| else 0)
  }

  /** No upgrade is lost or counted twice by the grouping. */
  lemma {:induction false} GroupTotalIsLength(all: seq<UpgradeRef>, stations: seq<string>, groups: map<string, seq<UpgradeRef>>)
    requires forall s :: s in groups ==> groups[s] == SortByLevel(OfStation(all, s))
    requires forall s :: s in stations ==> s in groups
    ensures GroupTotal(stations, groups) == Total(stations, all)
  {
    if stations != [] {
      GroupTotalIsLength(all, stations[..|stations| - 1], groups);
    }
  }

  /** For the groups `GroupByStation` builds, the group sizes add up to the number
      of upgrades. */
  lemma GroupsCountInput(all: seq<UpgradeRef>, stations: seq<string>, groups: map<string, seq<UpgradeRef>>)
    requires stations == StationsOf(all)
    requires forall s :: s in groups <==> s in stations
    requires forall s :: s in groups ==> groups[s] == SortByLevel(OfStation(all, s))
    ensures GroupTotal(stations, groups) == |all|
  {
    GroupTotalIsLength(all, stations, groups);
    TotalIsLength(all);
  }

  /** Line 71: whether a level's box is ticked. */
  function IsDone(completed: seq<string>, u: UpgradeRef): (done: bool)
    ensures done <==> UserProgress.UpgradeKey(u.station, u.level) in completed
  {
    UserProgress.UpgradeKey(u.station, u.level) in completed
  }

  /** The tracker reads the key `toggleUpgrade` writes: after ticking a level its box
      shows done, after unticking it does not, and an item's use of that level stops
      or starts counting as an active upgrade accordingly. */
  lemma TickAndUntick(completed: seq<string>, u: UpgradeRef, use: DataService.UpgradeUsage, uses: seq<DataService.UpgradeUsage>)
    requires use in uses && use.station == u.station && use.level == u.level
    ensures var key := UserProgress.UpgradeKey(u.station, u.level);
      && IsDone(UserProgress.Added(completed, key), u)
      && use !in DataService.ActiveUpgrades(uses, UserProgress.Added(completed, key))
      && !IsDone(UserProgress.Removed(completed, key), u)
      && use in DataService.ActiveUpgrades(uses, UserProgress.Removed(completed, key))
  {
    var key := UserProgress.UpgradeKey(u.station, u.level);
    DataService.ActiveUpgradesMembers(uses, UserProgress.Added(completed, key));
    DataService.ActiveUpgradesMembers(uses, UserProgress.Removed(completed, key));
  }
}
