/**
 * The location view (src/components/MapView.tsx): the fetched reports grouped
 * by their exact `location` string, a badge row per group, and a single
 * selected report that a click on a group sets and "Clear selection" resets.
 */
module MapView {
  import opened Reports

  /** The test `r.location === loc`: exact string equality, no trimming or case folding. */
  function LocatedAt(loc: string): WaterReport -> bool
  {
    (r: WaterReport) => r.location == loc
  }

  /** The members of the group keyed `loc`, in fetch order. */
  function AtLocation(s: seq<WaterReport>, loc: string): seq<WaterReport>
  {
    Filter(s, LocatedAt(loc))
  }

  /** The set of location strings that occur in `s`. */
  function DistinctLocations(s: seq<WaterReport>): set<string>
  {
    set r | r in s :: r.location
  }

  /**
   * The group keys in the order the reduce creates them: each location at
   * its first occurrence in `s`.
   */
  function Locations(s: seq<WaterReport>): (keys: seq<string>)
    ensures forall i, j :: 0 <= i < j < |keys| ==> keys[i] != keys[j]
  {
    if s == [] then []
    else
      var keys := Locations(s[..|s| - 1]);
      if s[|s| - 1].location in keys then keys else keys + [s[|s| - 1].location]
  }

  /** A location is a key exactly when some report has it. */
  lemma {:induction false} LocationOccurs(s: seq<WaterReport>, k: string)
    ensures k in Locations(s) <==> exists i :: 0 <= i < |s| && s[i].location == k
  {
    if s != [] {
      var init := s[..|s| - 1];
      var x := s[|s| - 1];
      LocationOccurs(init, k);
      assert s == init + [x];
      LocationsSnoc(init, x);
      assert forall i :: 0 <= i < |init| ==> s[i] == init[i];
    }
  }

  /** One entry of `locationGroups`. */
  datatype LocationGroup = LocationGroup(location: string, reports: seq<WaterReport>, activeCount: nat, totalCount: nat)

  /**
   * The group record built from a key and its members (lines 40-45):
   * `activeCount` is at most `totalCount`, and it is zero exactly when no
   * member is active.
   */
  function MakeGroup(loc: string, members: seq<WaterReport>): (g: LocationGroup)
    ensures g.location == loc && g.reports == members && g.totalCount == |members|
    ensures g.activeCount <= g.totalCount
    ensures g.activeCount == 0 <==> forall i :: 0 <= i < |members| ==> members[i].status != Active
  {
    NoActiveMembers(members);
    LocationGroup(loc, members, |WithStatus(members, Active)|, |members|)
  }

  /** The active filter of a list is empty exactly when no element is active. */
  lemma NoActiveMembers(members: seq<WaterReport>)
    ensures WithStatus(members, Active) == [] <==> forall i :: 0 <= i < |members| ==> members[i].status != Active
  {
    if WithStatus(members, Active) != [] {
      FilterMembership(members, HasStatus(Active), WithStatus(members, Active)[0]);
    }
    forall i | 0 <= i < |members| && members[i].status == Active ensures WithStatus(members, Active) != [] {
      FilterMembership(members, HasStatus(Active), members[i]);
    }
  }

  /** One group per key of `keys`, with the members `s` has at that key. */
  function GroupsOf(keys: seq<string>, s: seq<WaterReport>): seq<LocationGroup>
  {
    seq(|keys|, j requires 0 <= j < |keys| => MakeGroup(keys[j], AtLocation(s, keys[j])))
  }

  /** `groupByLocation(s)`: the reference definition the imperative version is proved against. */
  function Groups(s: seq<WaterReport>): (groups: seq<LocationGroup>)
    ensures |groups| == |Locations(s)|
    ensures forall j :: 0 <= j < |groups| ==> groups[j].reports != []
  {
    GroupsNonEmpty(s);
    GroupsOf(Locations(s), s)
  }

  /** Sum of `totalCount` over a list of groups. */
  function TotalOf(groups: seq<LocationGroup>): int
  {
    if groups == [] then 0 else TotalOf(groups[..|groups| - 1]) + groups[|groups| - 1].totalCount
  }

  /**
   * The reduce's accumulator after scanning `s`: `keys` lists the dictionary's
   * keys in insertion order and each key maps to that location's reports.
   */
  ghost predicate Represents(acc: map<string, seq<WaterReport>>, keys: seq<string>, s: seq<WaterReport>)
  {
    && keys == Locations(s)
    && (forall k :: k in acc <==> k in keys)
    && (forall k :: k in acc ==> acc[k] == AtLocation(s, k))
  }

  /** A reduce step on a location already seen appends the report to that key's list. */
  lemma ReduceStepExisting(acc: map<string, seq<WaterReport>>, keys: seq<string>, s: seq<WaterReport>, x: WaterReport)
    requires Represents(acc, keys, s) && x.location in acc
    ensures Represents(acc[x.location := acc[x.location] + [x]], keys, s + [x])
  {
    var next := acc[x.location := acc[x.location] + [x]];
    LocationsSnoc(s, x);
    assert keys == Locations(s + [x]);
    assert forall k :: k in next <==> k in keys;
    forall k | k in next ensures next[k] == AtLocation(s + [x], k) {
      AtLocationSnoc(s, x, k);
    }
  }

  /** A reduce step on a new location creates its key, last in insertion order, holding just the report. */
  lemma ReduceStepNew(acc: map<string, seq<WaterReport>>, keys: seq<string>, s: seq<WaterReport>, x: WaterReport)
    requires Represents(acc, keys, s) && x.location !in acc
    ensures Represents(acc[x.location := [x]], keys + [x.location], s + [x])
  {
    var next := acc[x.location := [x]];
    assert x.location !in Locations(s);
    LocationsSnoc(s, x);
    AbsentLocationIsEmpty(s, x.location);
    forall k | k in next ensures next[k] == AtLocation(s + [x], k) {
      AtLocationSnoc(s, x, k);
      if k == x.location {
        assert AtLocation(s + [x], k) == [] + [x];
      } else {
        assert next[k] == acc[k] == AtLocation(s, k);
      }
    }
  }

  /** A report appended to `s` adds its location as a new last key unless it is already a key. */
  lemma LocationsSnoc(s: seq<WaterReport>, x: WaterReport)
    ensures Locations(s + [x]) == if x.location in Locations(s) then Locations(s) else Locations(s) + [x.location]
  {
    assert (s + [x])[..|s|] == s;
  }

  /**
   * The `reduce` of lines 31-38, over a dictionary that has no inherited
   * entries: `keys` records the dictionary's keys in insertion order.
   */
  method ReduceByLocation(reports: seq<WaterReport>) returns (acc: map<string, seq<WaterReport>>, keys: seq<string>)
    ensures Represents(acc, keys, reports)
  {
    acc, keys := map[], [];
    var i := 0;
    while i < |reports|
      invariant 0 <= i <= |reports|
      invariant Represents(acc, keys, reports[..i])
    {
      var report := reports[i];
      var location := report.location;
      assert reports[..i + 1] == reports[..i] + [report];
      if location !in acc {
        ReduceStepNew(acc, keys, reports[..i], report);
      } else {
        ReduceStepExisting(acc, keys, reports[..i], report);
      }
      ghost var before := acc;
      if location !in acc {
        acc := acc[location := []];
        keys := keys + [location];
      }
      acc := acc[location := acc[location] + [report]];
      assert location !in before ==> acc == before[location := [report]];
      i := i + 1;
    }
    assert reports[..i] == reports;
  }

  /** `Object.entries(grouped).map(...)` of lines 40-45: one group record per key, in key order. */
  method EntriesToGroups(grouped: map<string, seq<WaterReport>>, keys: seq<string>) returns (groups: seq<LocationGroup>)
    requires forall k :: k in keys ==> k in grouped
    ensures |groups| == |keys|
    ensures forall t :: 0 <= t < |keys| ==> groups[t] == MakeGroup(keys[t], grouped[keys[t]])
  {
    groups := [];
    var j := 0;
    while j < |keys|
      invariant 0 <= j <= |keys|
      invariant |groups| == j
      invariant forall t :: 0 <= t < j ==> groups[t] == MakeGroup(keys[t], grouped[keys[t]])
    {
      var members := grouped[keys[j]];
      groups := groups + [LocationGroup(keys[j], members, |WithStatus(members, Active)|, |members|)];
      j := j + 1;
    }
  }

  /** `groupByLocation`: the reduce followed by the entries step. */
  method GroupByLocation(reports: seq<WaterReport>) returns (groups: seq<LocationGroup>)
    ensures groups == Groups(reports)
  {
    var grouped, keys := ReduceByLocation(reports);
    groups := EntriesToGroups(grouped, keys);
    assert forall t :: 0 <= t < |groups| ==> groups[t] == Groups(reports)[t];
  }

  /** Appending a report extends exactly the group keyed by its location. */
  lemma AtLocationSnoc(s: seq<WaterReport>, x: WaterReport, loc: string)
    ensures AtLocation(s + [x], loc) == if x.location == loc then AtLocation(s, loc) + [x] else AtLocation(s, loc)
  {
    FilterSnoc(s, x, LocatedAt(loc));
  }

  /** A report belongs to the group keyed `loc` exactly when its location is `loc`. */
  lemma AtLocationMembership(s: seq<WaterReport>, loc: string, x: WaterReport)
    ensures x in AtLocation(s, loc) <==> x in s && x.location == loc
  {
    FilterMembership(s, LocatedAt(loc), x);
  }

  /** A location that is not a key has no members. */
  lemma AbsentLocationIsEmpty(s: seq<WaterReport>, loc: string)
    requires loc !in Locations(s)
    ensures AtLocation(s, loc) == []
  {
    if AtLocation(s, loc) != [] {
      LocationOccurs(s, loc);
      AtLocationMembership(s, loc, AtLocation(s, loc)[0]);
      assert false;
    }
  }

  /** No group is empty: each key occurs in `s`, so its filter keeps that report. */
  lemma GroupsNonEmpty(s: seq<WaterReport>)
    ensures forall k :: k in Locations(s) ==> AtLocation(s, k) != []
  {
    forall k | k in Locations(s) ensures AtLocation(s, k) != [] {
      LocationOccurs(s, k);
      var i :| 0 <= i < |s| && s[i].location == k;
      AtLocationMembership(s, k, s[i]);
    }
  }

  /** Grouping covers every report, under distinct keys: each report's location is the key of some group. */
  lemma GroupsPartition(s: seq<WaterReport>)
    ensures forall j1, j2 :: 0 <= j1 < j2 < |Groups(s)| ==> Groups(s)[j1].location != Groups(s)[j2].location
    ensures forall i :: 0 <= i < |s| ==> exists j :: 0 <= j < |Groups(s)| && Groups(s)[j].location == s[i].location
  {
    var g := Groups(s);
    var keys := Locations(s);
    forall i | 0 <= i < |s| ensures exists j :: 0 <= j < |g| && g[j].location == s[i].location {
      LocationOccurs(s, s[i].location);
      var j :| 0 <= j < |keys| && keys[j] == s[i].location;
      assert g[j].location == keys[j];
    }
  }

  /**
   * Each report lies in the group keyed by its own location and in no other,
   * and a group holds only reports with its key.
   */
  lemma GroupMembers(s: seq<WaterReport>)
    ensures forall i, j :: 0 <= i < |s| && 0 <= j < |Groups(s)| ==>
      (s[i] in Groups(s)[j].reports <==> s[i].location == Groups(s)[j].location)
    ensures forall j, x :: 0 <= j < |Groups(s)| && x in Groups(s)[j].reports ==> x in s && x.location == Groups(s)[j].location
  {
    var g := Groups(s);
    var keys := Locations(s);
    forall j, x | 0 <= j < |g| ensures x in g[j].reports <==> x in s && x.location == g[j].location {
      AtLocationMembership(s, keys[j], x);
    }
  }

  /** Members keep the relative order they have in the fetched list. */
  lemma GroupsPreserveOrder(s: seq<WaterReport>)
    ensures forall j :: 0 <= j < |Groups(s)| ==> IsSubsequence(Groups(s)[j].reports, s)
  {
    forall j | 0 <= j < |Groups(s)| ensures IsSubsequence(Groups(s)[j].reports, s) {
      FilterIsSubsequence(s, LocatedAt(Locations(s)[j]));
    }
  }

  /** Each group's counts: `totalCount` is its length, `activeCount` its active members. */
  lemma GroupCounts(s: seq<WaterReport>)
    ensures forall j :: 0 <= j < |Groups(s)| ==>
      var g := Groups(s)[j];
      g.totalCount == |g.reports| &&
      g.activeCount == |WithStatus(g.reports, Active)| &&
      0 <= g.activeCount <= g.totalCount &&
      (forall x :: x in g.reports && x.status == Active ==> x in WithStatus(g.reports, Active)) &&
      (forall x :: x in WithStatus(g.reports, Active) ==> x in g.reports && x.status == Active)
  {
    forall j, x | 0 <= j < |Groups(s)| && x in Groups(s)[j].reports && x.status == Active
      ensures x in WithStatus(Groups(s)[j].reports, Active)
    {
      FilterMembership(Groups(s)[j].reports, HasStatus(Active), x);
    }
  }

  /** The keys are exactly the location strings that occur. */
  lemma LocationsAreDistinctLocations(s: seq<WaterReport>)
    ensures forall k :: k in Locations(s) <==> k in DistinctLocations(s)
  {
    forall k ensures k in Locations(s) <==> k in DistinctLocations(s) {
      LocationOccurs(s, k);
      if k in Locations(s) {
        var i :| 0 <= i < |s| && s[i].location == k;
        assert s[i] in s;
      }
      if k in DistinctLocations(s) {
        var r :| r in s && r.location == k;
        var i :| 0 <= i < |s| && s[i] == r;
      }
    }
  }

  /** As many groups as distinct location strings. */
  lemma {:induction false} GroupCountIsDistinctLocations(s: seq<WaterReport>)
    ensures |Groups(s)| == |DistinctLocations(s)|
  {
    if s != [] {
      var init := s[..|s| - 1];
      var x := s[|s| - 1];
      GroupCountIsDistinctLocations(init);
      assert s == init + [x];
      LocationsSnoc(init, x);
      DistinctLocationsSnoc(init, x);
      LocationsAreDistinctLocations(init);
      if x.location in Locations(init) {
        assert DistinctLocations(s) == DistinctLocations(init);
      } else {
        assert |DistinctLocations(s)| == |DistinctLocations(init)| + 1;
      }
    }
  }

  /** The locations of `s + [x]` are those of `s` plus `x`'s. */
  lemma DistinctLocationsSnoc(s: seq<WaterReport>, x: WaterReport)
    ensures DistinctLocations(s + [x]) == DistinctLocations(s) + {x.location}
  {
    assert (s + [x])[..|s|] == s;
    forall r | r in s + [x] ensures r in s || r == x {
    }
  }

  /** Adding a key adds its group's size to the total. */
  lemma TotalOfSnoc(keys: seq<string>, k: string, s: seq<WaterReport>)
    ensures TotalOf(GroupsOf(keys + [k], s)) == TotalOf(GroupsOf(keys, s)) + |AtLocation(s, k)|
  {
    var g := GroupsOf(keys + [k], s);
    assert g[..|keys|] == GroupsOf(keys, s);
  }

  /** With distinct keys, one more report raises the total by one exactly when its location is a key. */
  lemma {:induction false} TotalStep(keys: seq<string>, s: seq<WaterReport>, x: WaterReport)
    requires forall i, j :: 0 <= i < j < |keys| ==> keys[i] != keys[j]
    ensures TotalOf(GroupsOf(keys, s + [x])) == TotalOf(GroupsOf(keys, s)) + if x.location in keys then 1 else 0
  {
    if keys != [] {
      var ks := keys[..|keys| - 1];
      var k := keys[|keys| - 1];
      assert keys == ks + [k];
      TotalStep(ks, s, x);
      TotalOfSnoc(ks, k, s + [x]);
      TotalOfSnoc(ks, k, s);
      AtLocationSnoc(s, x, k);
      assert x.location in keys <==> x.location in ks || x.location == k;
    }
  }

  /** The `totalCount`s of all groups add up to the number of fetched reports. */
  lemma {:induction false} TotalCountsSum(s: seq<WaterReport>)
    ensures TotalOf(Groups(s)) == |s|
  {
    if s != [] {
      var init := s[..|s| - 1];
      var x := s[|s| - 1];
      var keys := Locations(init);
      TotalCountsSum(init);
      assert s == init + [x];
      LocationsSnoc(init, x);
      TotalStep(keys, init, x);
      if x.location !in keys {
        TotalOfSnoc(keys, x.location, s);
        AbsentLocationIsEmpty(init, x.location);
        AtLocationSnoc(init, x, x.location);
      }
    }
  }

  /** `i` is the first position of `s` whose report is at `loc`. */
  predicate FirstAt(s: seq<WaterReport>, loc: string, i: int)
  {
    0 <= i < |s| && s[i].location == loc && forall k :: 0 <= k < i ==> s[k].location != loc
  }

  /**
   * The first member of a group is the earliest report in fetch order with
   * that location: what a click on the group selects.
   */
  lemma {:induction false} FirstMemberIsEarliest(s: seq<WaterReport>, loc: string)
    requires loc in Locations(s)
    ensures AtLocation(s, loc) != []
    ensures exists i :: FirstAt(s, loc, i) && AtLocation(s, loc)[0] == s[i]
  {
    var init := s[..|s| - 1];
    var x := s[|s| - 1];
    assert s == init + [x];
    AtLocationSnoc(init, x, loc);
    if loc in Locations(init) {
      FirstMemberIsEarliest(init, loc);
      var i :| FirstAt(init, loc, i) && AtLocation(init, loc)[0] == init[i];
      assert forall k :: 0 <= k <= i ==> s[k] == init[k];
      assert FirstAt(s, loc, i) && AtLocation(s, loc)[0] == s[i];
    } else {
      AbsentLocationIsEmpty(init, loc);
      LocationsSnoc(init, x);
      LocationOccurs(init, loc);
      assert forall k :: 0 <= k < |init| ==> s[k] == init[k];
      assert FirstAt(s, loc, |init|) && AtLocation(s, loc)[0] == s[|init|];
    }
  }

  /** The status chips of a group card: the first three statuses and an overflow count. */
  datatype BadgeRow = BadgeRow(shown: seq<Status>, more: Option<nat>)

  /** `reports.slice(0, 3)` as chips, then "+n more" when there are more than three. */
  function Badges(members: seq<WaterReport>): (row: BadgeRow)
    ensures |row.shown| == if |members| < 3 then |members| else 3
    ensures forall i :: 0 <= i < |row.shown| ==> row.shown[i] == members[i].status
    ensures row.more.Some? <==> |members| > 3
    ensures |row.shown| + (if row.more.Some? then row.more.value else 0) == |members|
  {
    var n := if |members| < 3 then |members| else 3;
    BadgeRow(
      seq(n, i requires 0 <= i < n => members[i].status),
      if |members| > 3 then Some(|members| - 3) else None)
  }

  /** Every report a group holds is accounted for: shown as a chip or counted in "+n more". */
  lemma BadgesOfGroup(s: seq<WaterReport>, j: nat)
    requires j < |Groups(s)|
    ensures var row := Badges(Groups(s)[j].reports);
      |row.shown| + (if row.more.Some? then row.more.value else 0) == Groups(s)[j].totalCount &&
      (row.more.Some? ==> row.more.value == Groups(s)[j].totalCount - 3) &&
      |row.shown| >= 1 && row.shown[0] == Groups(s)[j].reports[0].status
  {
  }

  /** Component state of the location view. */
  class MapViewState {
    var reports: seq<WaterReport>
    var loading: bool
    var selected: Option<WaterReport>

    /** Mount: no reports yet, spinner shown, nothing selected. */
    constructor ()
      ensures reports == [] && loading && selected == None
    {
      reports := [];
      loading := true;
      selected := None;
    }

    /** The groups rendered for the current reports: one per distinct location, none empty. */
    function LocationGroups(): (groups: seq<LocationGroup>)
      reads this
      ensures |groups| == |DistinctLocations(reports)|
      ensures forall j :: 0 <= j < |groups| ==> groups[j].reports != []
    {
      GroupCountIsDistinctLocations(reports);
      Groups(reports)
    }

    /**
     * `fetchReports` once its request has settled: the data (or an empty
     * list for null) on success, the old list on failure; the spinner goes
     * away either way and a stale selection is kept.
     */
    method FetchReports(outcome: FetchOutcome)
      modifies this
      ensures outcome.Fetched? ==> reports == FetchedList(outcome.data)
      ensures outcome.FetchFailed? ==> reports == old(reports)
      ensures !loading && selected == old(selected)
    {
      if outcome.Fetched? {
        reports := FetchedList(outcome.data);
      }
      loading := false;
    }

    /** A click on group `j` selects that group's first member. */
    method SelectGroup(j: nat)
      requires j < |Groups(reports)|
      modifies this
      ensures selected == Some(old(Groups(reports))[j].reports[0])
      ensures selected.value in old(reports) && selected.value.location == old(Groups(reports))[j].location
      ensures reports == old(reports) && loading == old(loading)
    {
      GroupMembers(reports);
      selected := Some(Groups(reports)[j].reports[0]);
    }

    /** "Clear selection" empties the detail panel. */
    method ClearSelection()
      modifies this
      ensures selected == None
      ensures reports == old(reports) && loading == old(loading)
    {
      selected := None;
    }
  }

  // ---------------------------------------------------------------------------
  // The reduce as written, over a plain object literal `{}`.

  /**
   * Property names that every plain object inherits from `Object.prototype`.
   * Looking one of them up on `{}` gives a truthy value that is not an array.
   */
  const InheritedProperties: set<string> := {
    "constructor", "toString", "toLocaleString", "valueOf", "hasOwnProperty",
    "isPrototypeOf", "propertyIsEnumerable", "__proto__", "__defineGetter__",
    "__defineSetter__", "__lookupGetter__", "__lookupSetter__"
  }

  /** The accumulator of the reduce, or the TypeError thrown by `push` on an inherited value. */
  datatype Accumulated =
    | Accumulated(acc: map<string, seq<WaterReport>>, keys: seq<string>)
    | PushNotAFunction(location: string)

  /**
   * Lines 31-38 as they stand: `!acc[location]` is false for an own key and
   * for an inherited name alike, so an inherited name skips the `= []` and the
   * following `push` throws.
   */
  function ReduceAsWritten(s: seq<WaterReport>): (r: Accumulated)
    ensures r.PushNotAFunction? ==>
      r.location in InheritedProperties && exists i :: 0 <= i < |s| && s[i].location == r.location
  {
    if s == [] then Accumulated(map[], [])
    else
      var x := s[|s| - 1];
      match ReduceAsWritten(s[..|s| - 1])
      case PushNotAFunction(loc) => PushNotAFunction(loc)
      case Accumulated(acc, keys) =>
        if x.location in acc then Accumulated(acc[x.location := acc[x.location] + [x]], keys)
        else if x.location in InheritedProperties then PushNotAFunction(x.location)
        else Accumulated(acc[x.location := [x]], keys + [x.location])
  }

  /** While the as-written reduce has not thrown, its dictionary is the grouping of the reports so far. */
  lemma {:induction false} ReduceAsWrittenRepresents(s: seq<WaterReport>)
    ensures ReduceAsWritten(s).Accumulated? ==> Represents(ReduceAsWritten(s).acc, ReduceAsWritten(s).keys, s)
  {
    if s != [] {
      var init := s[..|s| - 1];
      var x := s[|s| - 1];
      ReduceAsWrittenRepresents(init);
      assert s == init + [x];
      var prior := ReduceAsWritten(init);
      if prior.Accumulated? {
        if x.location in prior.acc {
          ReduceStepExisting(prior.acc, prior.keys, init, x);
        } else if x.location !in InheritedProperties {
          ReduceStepNew(prior.acc, prior.keys, init, x);
        }
      }
    }
  }

  /**
   * The as-written reduce completes exactly when no location is an inherited
   * property name; otherwise it throws.
   */
  lemma {:induction false} ReduceAsWrittenAgrees(s: seq<WaterReport>)
    ensures ReduceAsWritten(s).Accumulated? <==> forall i :: 0 <= i < |s| ==> s[i].location !in InheritedProperties
  {
    if s != [] {
      var init := s[..|s| - 1];
      var x := s[|s| - 1];
      ReduceAsWrittenAgrees(init);
      assert forall i :: 0 <= i < |init| ==> s[i] == init[i];
      assert s == init + [x];
      var prior := ReduceAsWritten(init);
      if prior.Accumulated? && x.location in prior.acc {
        ReduceAsWrittenRepresents(init);
        LocationOccurs(init, x.location);
        var i :| 0 <= i < |init| && init[i].location == x.location;
        assert s[i].location == x.location;
      }
    }
  }

  /** One report filed at location "toString" makes the as-written reduce throw. */
  lemma InheritedLocationThrows(r: WaterReport)
    requires r.location == "toString"
    ensures ReduceAsWritten([r]) == PushNotAFunction("toString")
    ensures |Groups([r])| == 1 && Groups([r])[0].totalCount == 1
  {
    assert [r][..0] == [] && [] + [r] == [r];
    assert "toString" in InheritedProperties;
    LocationsSnoc([], r);
    AtLocationSnoc([], r, r.location);
    assert Locations([r]) == [r.location];
  }
}
