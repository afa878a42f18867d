/**
 The incident reports of src/common/bl/incident_reports.py: grouping recurring incidents by following the
 "same incident in the past" links, and the shortest and longest durations.
 */
module IncidentReports {
  import opened Options

  type Id = string
  // The known incidents, each with its link to an earlier one.
  type Incidents = map<Id, Option<Id>>

  predicate HasPast(d: Incidents, id: Id) {
    id in d && d[id].Some?
  }

  // The incident n links back, if there is one; the last link of a chain may leave the known incidents.
  function Follow(d: Incidents, id: Id, n: nat): Option<Id>
    decreases n
  {
    if n == 0 then Some(id)
    else if HasPast(d, id) then Follow(d, d[id].value, n - 1)
    else None
  }

  ghost predicate Acyclic(d: Incidents) {
    forall id, n: nat :: id in d && n > 0 ==> Follow(d, id, n) != Some(id)
  }

  ghost predicate Ends(d: Incidents, id: Id) {
    exists n: nat :: Follow(d, id, n) == None
  }

  predicate IsRoot(d: Incidents, id: Id) {
    id in d && d[id].None?
  }

  // The chain from id ends at the known incident root.
  ghost predicate EndsAt(d: Incidents, id: Id, root: Id) {
    IsRoot(d, root) && exists n: nat :: Follow(d, id, n) == Some(root)
  }

  ghost function Members(d: Incidents, root: Id): set<Id> {
    set id | id in d && EndsAt(d, id, root)
  }

  // -- chains --

  lemma {:induction false} FollowSplit(d: Incidents, id: Id, m: nat, n: nat)
    ensures Follow(d, id, m + n) ==
            match Follow(d, id, m) { case None => None case Some(mid) => Follow(d, mid, n) }
    decreases m
  {
    if m > 0 && HasPast(d, id) {
      FollowSplit(d, d[id].value, m - 1, n);
    }
  }

  ghost predicate SeenBefore(d: Incidents, start: Id, n: nat, id: Id) {
    exists m: nat :: m < n && Follow(d, start, m) == Some(id)
  }

  // From a chain that never repeats, every step takes a new incident, so it runs out.
  lemma {:induction false} RunsOut(d: Incidents, start: Id, at: Id, n: nat, seen: set<Id>)
    requires Acyclic(d)
    requires Follow(d, start, n) == Some(at)
    requires seen <= d.Keys && forall id :: id in seen <==> SeenBefore(d, start, n, id)
    ensures Ends(d, start)
    decreases |d.Keys - seen|
  {
    if HasPast(d, at) {
      var next := d[at].value;
      FollowSplit(d, start, n, 1);
      assert Follow(d, at, 1) == Some(next);
      if at in seen {
        var m: nat :| m < n && Follow(d, start, m) == Some(at);
        FollowSplit(d, start, m, n - m);
        assert false;
      }
      forall id ensures id in seen + {at} <==> SeenBefore(d, start, n + 1, id) {
        if m: nat :| m < n && Follow(d, start, m) == Some(id) {
          assert m < n + 1 && Follow(d, start, m) == Some(id);
        } else if id == at {
          assert n < n + 1 && Follow(d, start, n) == Some(id);
        }
      }
      assert d.Keys - (seen + {at}) < d.Keys - seen;
      SmallerSet(d.Keys - (seen + {at}), d.Keys - seen);
      RunsOut(d, start, next, n + 1, seen + {at});
    } else {
      FollowSplit(d, start, n, 1);
      assert Follow(d, start, n + 1) == None;
    }
  }

  lemma SmallerSet(a: set<Id>, b: set<Id>)
    requires a < b
    ensures |a| < |b|
  {
    var x :| x in b && x !in a;
    assert a <= b - {x};
    SubsetSize(a, b - {x});
  }

  lemma {:induction false} SubsetSize(a: set<Id>, b: set<Id>)
    requires a <= b
    ensures |a| <= |b|
  {
    if x :| x in a {
      SubsetSize(a - {x}, b - {x});
    }
  }

  lemma CycleNeverEnds(d: Incidents, id: Id, n: nat, m: nat)
    requires n > 0 && Follow(d, id, n) == Some(id)
    ensures Follow(d, id, m) != None
    decreases m
  {
    if m >= n {
      FollowSplit(d, id, n, m - n);
      CycleNeverEnds(d, id, n, m - n);
    } else {
      FollowSplit(d, id, m, n - m);
    }
  }

  // The walk up the links comes to an end from every incident exactly when no incident is its own past.
  lemma AllWalksEndIffAcyclic(d: Incidents)
    ensures (forall id :: id in d ==> Ends(d, id)) <==> Acyclic(d)
  {
    if Acyclic(d) {
      forall id | id in d ensures Ends(d, id) {
        RunsOut(d, id, id, 0, {});
      }
    } else {
      var id, n: nat :| id in d && n > 0 && Follow(d, id, n) == Some(id);
      forall m: nat ensures Follow(d, id, m) != None {
        CycleNeverEnds(d, id, n, m);
      }
    }
  }

  lemma OneRoot(d: Incidents, id: Id, r: Id, s: Id)
    requires EndsAt(d, id, r) && EndsAt(d, id, s)
    ensures r == s
  {
    var m: nat :| Follow(d, id, m) == Some(r);
    var n: nat :| Follow(d, id, n) == Some(s);
    if m < n {
      FollowSplit(d, id, m, n - m);
    } else {
      FollowSplit(d, id, n, m - n);
    }
  }

  // Groups of different roots share no incident.
  lemma GroupsDisjoint(d: Incidents, r: Id, s: Id)
    requires r != s
    ensures Members(d, r) !! Members(d, s)
  {
    forall id | id in Members(d, r) && id in Members(d, s) ensures false {
      OneRoot(d, id, r, s);
    }
  }

  // A group has a second member exactly when some incident with a past ends at its root.
  lemma SecondMember(d: Incidents, root: Id)
    requires IsRoot(d, root)
    ensures root in Members(d, root)
    ensures |Members(d, root)| >= 2 <==> exists id :: HasPast(d, id) && EndsAt(d, id, root)
  {
    assert Follow(d, root, 0) == Some(root);
    if id :| HasPast(d, id) && EndsAt(d, id, root) {
      SubsetSize({id, root}, Members(d, root));
    } else {
      forall id | id in Members(d, root) ensures id == root {
        var n: nat :| Follow(d, id, n) == Some(root);
      }
      assert Members(d, root) == {root};
    }
  }

  // -- the walk --

  ghost predicate OnPath(d: Incidents, id: Id, x: Id) {
    exists n: nat :: Follow(d, id, n) == Some(x)
  }

  // The walk from id puts x into the group of root.
  ghost predicate Gives(d: Incidents, id: Id, root: Id, x: Id) {
    HasPast(d, id) && EndsAt(d, id, root) && OnPath(d, id, x)
  }

  lemma LeavingHasNoRoot(d: Incidents, id: Id, m: nat, x: Id)
    requires Follow(d, id, m) == Some(x) && x !in d
    ensures forall root :: !EndsAt(d, id, root)
  {
    forall root ensures !EndsAt(d, id, root) {
      if n: nat :| IsRoot(d, root) && Follow(d, id, n) == Some(root) {
        if n < m {
          FollowSplit(d, id, n, m - n);
        } else {
          FollowSplit(d, id, m, n - m);
        }
      }
    }
  }

  lemma PathToRoot(d: Incidents, id: Id, path: seq<Id>)
    requires path != [] && IsRoot(d, path[|path| - 1])
    requires forall i :: 0 <= i < |path| ==> Follow(d, id, i) == Some(path[i])
    ensures forall x :: x in path <==> OnPath(d, id, x)
  {
    forall x | OnPath(d, id, x) ensures x in path {
      var n: nat :| Follow(d, id, n) == Some(x);
      if n >= |path| {
        FollowSplit(d, id, |path| - 1, n - (|path| - 1));
      }
    }
    forall x | x in path ensures OnPath(d, id, x) {
      var i :| 0 <= i < |path| && path[i] == x;
      assert Follow(d, id, i) == Some(x);
    }
  }

  // The inner loop: follows the links from one incident and keeps the path it took.
  method Walk(d: Incidents, id: Id) returns (root: Option<Id>, path: seq<Id>)
    requires Acyclic(d) && id in d
    ensures root.Some? ==> HasPast(d, id) && EndsAt(d, id, root.value) && forall x :: x in path <==> OnPath(d, id, x)
    ensures root.None? ==> forall r, x :: !Gives(d, id, r, x)
  {
    AllWalksEndIffAcyclic(d);
    ghost var n: nat :| Follow(d, id, n) == None;
    root, path := None, [id];
    var current := d[id];
    while current.Some?
      invariant path != [] && HasPast(d, id) == d[id].Some?
      invariant forall i :: 0 <= i < |path| ==> Follow(d, id, i) == Some(path[i])
      invariant current == Follow(d, id, |path|)
      invariant current.Some? ==> |path| < n && HasPast(d, id)
      invariant current.None? ==> !HasPast(d, id)
      decreases n - |path|
    {
      path := path + [current.value];
      FollowSplit(d, id, |path| - 1, 1);
      if current.value !in d {
        LeavingHasNoRoot(d, id, |path| - 1, current.value);
        return;
      }
      if d[current.value].None? {
        root := current;
        PathToRoot(d, id, path);
        return;
      }
      current := d[current.value];
      if |path| >= n {
        FollowSplit(d, id, n, |path| - n);
        assert false;
      }
    }
  }

  lemma GroupIsMembers(d: Incidents, root: Id, group: set<Id>)
    requires forall x :: x in group <==> exists id :: Gives(d, id, root, x)
    requires exists id, x :: Gives(d, id, root, x)
    ensures group == Members(d, root) && |group| >= 2
  {
    var id0, x0 :| Gives(d, id0, root, x0);
    forall x ensures x in group <==> x in Members(d, root) {
      if id :| Gives(d, id, root, x) {
        RestOfPath(d, id, root, x);
      } else if x in Members(d, root) {
        if HasPast(d, x) {
          assert Follow(d, x, 0) == Some(x);
          assert Gives(d, x, root, x);
        } else {
          var n: nat :| Follow(d, x, n) == Some(root);
          assert Gives(d, id0, root, root);
        }
        assert false;
      }
    }
    SecondMember(d, root);
  }

  lemma RestOfPath(d: Incidents, id: Id, root: Id, x: Id)
    requires Gives(d, id, root, x)
    ensures x in Members(d, root)
  {
    var n: nat :| Follow(d, id, n) == Some(root);
    var m: nat :| Follow(d, id, m) == Some(x);
    if m <= n {
      FollowSplit(d, id, m, n - m);
      assert Follow(d, x, n - m) == Some(root);
    } else {
      FollowSplit(d, id, n, m - n);
    }
  }

  datatype Report = Report(root: Id, occurrences: nat)

  ghost predicate Given(d: Incidents, ids: seq<Id>, root: Id, x: Id) {
    exists id :: id in ids && Gives(d, id, root, x)
  }

  lemma WalkGives(d: Incidents, id: Id, root: Option<Id>, path: seq<Id>)
    requires root.Some? ==> HasPast(d, id) && EndsAt(d, id, root.value) && forall x :: x in path <==> OnPath(d, id, x)
    requires root.None? ==> forall r, x :: !Gives(d, id, r, x)
    ensures forall r, x :: Gives(d, id, r, x) <==> root == Some(r) && x in path
  {
    forall r, x ensures Gives(d, id, r, x) <==> root == Some(r) && x in path {
      if root.Some? && Gives(d, id, r, x) {
        OneRoot(d, id, r, root.value);
      }
    }
  }

  function WithPath(groups: map<Id, set<Id>>, root: Option<Id>, path: seq<Id>): map<Id, set<Id>> {
    match root
    case None => groups
    case Some(r) => groups[r := (if r in groups then groups[r] else {}) + set x | x in path]
  }

  // The groups hold what the walks so far have given, and none is empty.
  ghost predicate Holds(d: Incidents, ids: seq<Id>, groups: map<Id, set<Id>>) {
    && (forall r, x :: r in groups && x in groups[r] <==> Given(d, ids, r, x))
    && (forall r :: r in groups ==> groups[r] != {})
  }

  lemma OneMoreWalk(d: Incidents, ids: seq<Id>, groups: map<Id, set<Id>>, id: Id, root: Option<Id>, path: seq<Id>)
    requires Holds(d, ids, groups)
    requires root.Some? ==> HasPast(d, id) && EndsAt(d, id, root.value) && forall x :: x in path <==> OnPath(d, id, x)
    requires root.None? ==> forall r, x :: !Gives(d, id, r, x)
    ensures Holds(d, ids + [id], WithPath(groups, root, path))
  {
    var now := WithPath(groups, root, path);
    WalkGives(d, id, root, path);
    forall r, x ensures r in now && x in now[r] <==> Given(d, ids + [id], r, x) {
      assert Given(d, ids + [id], r, x) <==> Given(d, ids, r, x) || Gives(d, id, r, x);
      assert r in groups && x in groups[r] <==> Given(d, ids, r, x);
    }
    if root.Some? {
      assert OnPath(d, id, id) by { assert Follow(d, id, 0) == Some(id); }
      assert id in now[root.value];
    }
  }

  // The outer loop, over the incidents in the order of the dictionary.
  method Group(d: Incidents, order: seq<Id>) returns (groups: map<Id, set<Id>>, roots: seq<Id>)
    requires Acyclic(d) && forall id :: id in order ==> id in d
    ensures forall r :: r in roots <==> r in groups
    ensures forall i, j :: 0 <= i < j < |roots| ==> roots[i] != roots[j]
    ensures Holds(d, order, groups)
  {
    groups, roots := map[], [];
    for k := 0 to |order|
      invariant forall r :: r in roots <==> r in groups
      invariant forall i, j :: 0 <= i < j < |roots| ==> roots[i] != roots[j]
      invariant Holds(d, order[..k], groups)
    {
      var root, path := Walk(d, order[k]);
      OneMoreWalk(d, order[..k], groups, order[k], root, path);
      assert order[..k + 1] == order[..k] + [order[k]];
      if root.Some? {
        ghost var was := groups;
        if root.value !in groups {
          groups, roots := groups[root.value := {}], roots + [root.value];
        }
        groups := groups[root.value := groups[root.value] + set x | x in path];
        assert groups == WithPath(was, root, path);
      }
    }
    assert order[..|order|] == order;
  }

  // One report for every root with at least two members, and their number with it.
  method RecurringIncidents(d: Incidents, order: seq<Id>) returns (reports: seq<Report>)
    requires Acyclic(d) && forall id :: id in order <==> id in d
    ensures forall i :: 0 <= i < |reports| ==> reports[i].occurrences == |Members(d, reports[i].root)| >= 2
    ensures forall i, j :: 0 <= i < j < |reports| ==> reports[i].root != reports[j].root
    ensures forall root :: IsRoot(d, root) && |Members(d, root)| >= 2 <==>
                           exists i :: 0 <= i < |reports| && reports[i].root == root
  {
    var groups, roots := Group(d, order);
    forall r ensures r in groups ==> IsRoot(d, r) && groups[r] == Members(d, r) && |groups[r]| >= 2
             ensures r in groups <==> IsRoot(d, r) && |Members(d, r)| >= 2
    {
      GroupComplete(d, order, groups, r);
    }
    reports := [];
    for k := 0 to |roots|
      invariant |reports| == k
      invariant forall i :: 0 <= i < k ==> reports[i] == Report(roots[i], |Members(d, roots[i])|)
    {
      assert roots[k] in groups;
      reports := reports + [Report(roots[k], |groups[roots[k]]|)];
    }
    assert forall i :: 0 <= i < |roots| ==> roots[i] in groups;
  }

  lemma GroupComplete(d: Incidents, order: seq<Id>, groups: map<Id, set<Id>>, r: Id)
    requires forall id :: id in order <==> id in d
    requires Holds(d, order, groups)
    ensures r in groups ==> IsRoot(d, r) && groups[r] == Members(d, r) && |groups[r]| >= 2
    ensures r in groups <==> IsRoot(d, r) && |Members(d, r)| >= 2
  {
    if r in groups {
      var x :| x in groups[r];
      assert Given(d, order, r, x);
      forall x ensures x in groups[r] <==> exists id :: Gives(d, id, r, x) {
        if id :| Gives(d, id, r, x) {
          assert id in order;
        }
      }
      GroupIsMembers(d, r, groups[r]);
    } else if IsRoot(d, r) && |Members(d, r)| >= 2 {
      SecondMember(d, r);
      var id :| HasPast(d, id) && EndsAt(d, id, r);
      assert Follow(d, id, 0) == Some(id);
      assert Gives(d, id, r, id);
      assert id in order && Given(d, order, r, id);
      assert false;
    }
  }

  // -- durations of resolved incidents --

  datatype Resolved = Resolved(id: Id, start: Option<real>, creation: real, end: Option<real>) {
    function Started(): real {
      if start.Some? then start.value else creation
    }

    function Duration(): real
      requires end.Some?
    {
      end.value - Started()
    }
  }

  function Counted(incidents: seq<Resolved>): (counted: seq<Resolved>)
    ensures forall r :: r in counted ==> r.end.Some? && r in incidents
  {
    if incidents == [] then []
    else
      var before, last := incidents[..|incidents| - 1], incidents[|incidents| - 1];
      Counted(before) + if last.end.Some? then [last] else []
  }

  function Durations(incidents: seq<Resolved>): (ds: seq<real>)
    ensures |ds| == |Counted(incidents)| && forall i :: 0 <= i < |ds| ==> ds[i] == Counted(incidents)[i].Duration()
  {
    seq(|Counted(incidents)|, i requires 0 <= i < |Counted(incidents)| => Counted(incidents)[i].Duration())
  }

  // A kept value of zero counts as "none yet": the next duration replaces it.
  predicate Unset(kept: Option<real>) {
    kept.None? || kept.value == 0.0
  }

  function Shortest(ds: seq<real>): (kept: Option<real>)
    ensures kept.None? <==> ds == []
  {
    if ds == [] then None
    else
      var kept, d := Shortest(ds[..|ds| - 1]), ds[|ds| - 1];
      if Unset(kept) || d < kept.value then Some(d) else kept
  }

  function Longest(ds: seq<real>): (kept: Option<real>)
    ensures kept.None? <==> ds == []
  {
    if ds == [] then None
    else
      var kept, d := Longest(ds[..|ds| - 1]), ds[|ds| - 1];
      if Unset(kept) || d > kept.value then Some(d) else kept
  }

  // Where the two are in the list.
  function ShortestAt(ds: seq<real>): (k: nat)
    requires ds != []
    ensures k < |ds| && Shortest(ds) == Some(ds[k])
  {
    var before, last := ds[..|ds| - 1], |ds| - 1;
    if before == [] || before[ShortestAt(before)] == 0.0 || ds[last] < before[ShortestAt(before)] then last
    else ShortestAt(before)
  }

  function LongestAt(ds: seq<real>): (k: nat)
    requires ds != []
    ensures k < |ds| && Longest(ds) == Some(ds[k])
  {
    var before, last := ds[..|ds| - 1], |ds| - 1;
    if before == [] || before[LongestAt(before)] == 0.0 || ds[last] > before[LongestAt(before)] then last
    else LongestAt(before)
  }

  // Of several incidents of the same length the first is reported, unless a zero was forgotten.
  lemma {:induction false} FirstShortest(ds: seq<real>)
    requires ds != [] && 0.0 !in ds
    ensures forall j :: 0 <= j < ShortestAt(ds) ==> ds[j] > Shortest(ds).value
  {
    var before := ds[..|ds| - 1];
    assert ds == before + [ds[|ds| - 1]];
    if before != [] {
      FirstShortest(before);
      ShortestOf(before);
      forall j | 0 <= j < |before| ensures before[j] >= Shortest(before).value {
        assert before[j] in before && before[j] == ds[j];
      }
      assert 0.0 !in before;
    }
  }

  lemma {:induction false} FirstLongest(ds: seq<real>)
    requires ds != [] && 0.0 !in ds
    ensures forall j :: 0 <= j < LongestAt(ds) ==> ds[j] < Longest(ds).value
  {
    var before := ds[..|ds| - 1];
    assert ds == before + [ds[|ds| - 1]];
    if before != [] {
      FirstLongest(before);
      LongestOf(before);
      forall j | 0 <= j < |before| ensures before[j] <= Longest(before).value {
        assert before[j] in before && before[j] == ds[j];
      }
      assert 0.0 !in before;
    }
  }

  // The incidents that the two belong to.
  function ShortestId(incidents: seq<Resolved>): Option<Id> {
    if Durations(incidents) == [] then None
    else Some(Counted(incidents)[ShortestAt(Durations(incidents))].id)
  }

  function LongestId(incidents: seq<Resolved>): Option<Id> {
    if Durations(incidents) == [] then None
    else Some(Counted(incidents)[LongestAt(Durations(incidents))].id)
  }

  lemma OneMoreAt(ds: seq<real>, d: real)
    ensures ShortestAt(ds + [d]) == if Unset(Shortest(ds)) || d < Shortest(ds).value then |ds| else ShortestAt(ds)
    ensures LongestAt(ds + [d]) == if Unset(Longest(ds)) || d > Longest(ds).value then |ds| else LongestAt(ds)
  {
    assert (ds + [d])[..|ds|] == ds;
  }

  lemma NextShortest(incidents: seq<Resolved>, k: nat)
    requires k < |incidents|
    ensures var ds, r := Durations(incidents[..k]), incidents[k];
            ShortestId(incidents[..k + 1]) ==
              if r.end.Some? && (Unset(Shortest(ds)) || r.Duration() < Shortest(ds).value) then Some(r.id)
              else ShortestId(incidents[..k])
  {
    var before, after, r := incidents[..k], incidents[..k + 1], incidents[k];
    OneMoreIncident(incidents, k);
    if r.end.Some? {
      OneMoreAt(Durations(before), r.Duration());
      assert Durations(after) == Durations(before) + [r.Duration()];
      assert Counted(after) == Counted(before) + [r];
    } else {
      assert Durations(after) == Durations(before);
    }
  }

  lemma NextLongest(incidents: seq<Resolved>, k: nat)
    requires k < |incidents|
    ensures var ds, r := Durations(incidents[..k]), incidents[k];
            LongestId(incidents[..k + 1]) ==
              if r.end.Some? && (Unset(Longest(ds)) || r.Duration() > Longest(ds).value) then Some(r.id)
              else LongestId(incidents[..k])
  {
    var before, after, r := incidents[..k], incidents[..k + 1], incidents[k];
    OneMoreIncident(incidents, k);
    if r.end.Some? {
      OneMoreAt(Durations(before), r.Duration());
      assert Durations(after) == Durations(before) + [r.Duration()];
      assert Counted(after) == Counted(before) + [r];
    } else {
      assert Durations(after) == Durations(before);
    }
  }

  // A duration runs from the start time, or from the creation where there is none; without an end there is none.
  lemma OneMoreIncident(incidents: seq<Resolved>, k: nat)
    requires k < |incidents|
    ensures Durations(incidents[..0]) == []
    ensures var before, after, r := incidents[..k], incidents[..k + 1], incidents[k];
            && Counted(after) == Counted(before) + (if r.end.Some? then [r] else [])
            && Durations(after) == Durations(before) + (
                 if r.end.None? then []
                 else if r.start.Some? then [r.end.value - r.start.value]
                 else [r.end.value - r.creation])
  {
    assert incidents[..k + 1][..k] == incidents[..k];
  }

  lemma OneMoreDuration(ds: seq<real>, d: real)
    ensures Shortest(ds + [d]) == if Unset(Shortest(ds)) || d < Shortest(ds).value then Some(d) else Shortest(ds)
    ensures Longest(ds + [d]) == if Unset(Longest(ds)) || d > Longest(ds).value then Some(d) else Longest(ds)
  {
    assert (ds + [d])[..|ds|] == ds;
  }

  method CalculateDurations(incidents: seq<Resolved>)
    returns (shortest: Option<real>, shortestId: Option<Id>, longest: Option<real>, longestId: Option<Id>)
    ensures shortest == Shortest(Durations(incidents)) && longest == Longest(Durations(incidents))
    ensures shortestId == ShortestId(incidents) && longestId == LongestId(incidents)
  {
    shortest, shortestId, longest, longestId := None, None, None, None;
    for k := 0 to |incidents|
      invariant shortest == Shortest(Durations(incidents[..k])) && longest == Longest(Durations(incidents[..k]))
      invariant shortestId == ShortestId(incidents[..k]) && longestId == LongestId(incidents[..k])
    {
      var r := incidents[k];
      OneMoreIncident(incidents, k);
      NextShortest(incidents, k);
      NextLongest(incidents, k);
      if r.end.None? {
        assert Durations(incidents[..k + 1]) == Durations(incidents[..k]);
        continue;
      }
      var duration := r.Duration();
      OneMoreDuration(Durations(incidents[..k]), duration);
      if Unset(shortest) || duration < shortest.value {
        shortest, shortestId := Some(duration), Some(r.id);
      }
      if Unset(longest) || duration > longest.value {
        longest, longestId := Some(duration), Some(r.id);
      }
    }
    assert incidents[..|incidents|] == incidents;
  }

  ghost predicate IsMin(m: real, ds: seq<real>) {
    m in ds && forall d :: d in ds ==> m <= d
  }

  ghost predicate IsMax(m: real, ds: seq<real>) {
    m in ds && forall d :: d in ds ==> d <= m
  }

  ghost predicate SomeBelow(ds: seq<real>) {
    exists d :: d in ds && d < 0.0
  }

  ghost predicate SomeAbove(ds: seq<real>) {
    exists d :: d in ds && d > 0.0
  }

  lemma {:induction false} ShortestOf(ds: seq<real>)
    requires ds != []
    ensures Shortest(ds).value in ds
    ensures SomeBelow(ds) <==> Shortest(ds).value < 0.0
    ensures !SomeBelow(ds) ==> (Shortest(ds).value == 0.0 <==> ds[|ds| - 1] == 0.0)
    ensures SomeBelow(ds) || 0.0 !in ds ==> IsMin(Shortest(ds).value, ds)
  {
    if |ds| > 1 {
      var before, d := ds[..|ds| - 1], ds[|ds| - 1];
      assert ds == before + [d] && forall x :: x in before ==> x in ds;
      ShortestOf(before);
    }
  }

  // The reported shortest duration is the minimum exactly when no duration is zero, or the last one is, or some
  // incident ended before it started.
  lemma ShortestIsMinIff(ds: seq<real>)
    requires ds != []
    ensures IsMin(Shortest(ds).value, ds) <==> 0.0 !in ds || ds[|ds| - 1] == 0.0 || SomeBelow(ds)
  {
    ShortestOf(ds);
  }

  // A zero counts as not set, so a later duration takes its place: of 0 and 5 seconds the reported shortest is 5,
  // and of 0 and -1 seconds the reported longest is -1.
  lemma ZeroIsForgotten()
    ensures Shortest([0.0, 5.0]) == Some(5.0) && IsMin(0.0, [0.0, 5.0]) && !IsMin(5.0, [0.0, 5.0])
    ensures Longest([0.0, -1.0]) == Some(-1.0) && IsMax(0.0, [0.0, -1.0]) && !IsMax(-1.0, [0.0, -1.0])
  {
    var none: seq<real> := [];
    OneMoreDuration(none, 0.0);
    OneMoreDuration([0.0], 5.0);
    OneMoreDuration([0.0], -1.0);
    assert none + [0.0] == [0.0] && [0.0] + [5.0] == [0.0, 5.0] && [0.0] + [-1.0] == [0.0, -1.0];
    assert Shortest([0.0]) == Some(0.0) && Longest([0.0]) == Some(0.0);
    assert [0.0, 5.0][0] == 0.0 && [0.0, -1.0][0] == 0.0;
  }

  lemma {:induction false} LongestOf(ds: seq<real>)
    requires ds != []
    ensures Longest(ds).value in ds
    ensures SomeAbove(ds) <==> Longest(ds).value > 0.0
    ensures !SomeAbove(ds) ==> (Longest(ds).value == 0.0 <==> ds[|ds| - 1] == 0.0)
    ensures SomeAbove(ds) || 0.0 !in ds ==> IsMax(Longest(ds).value, ds)
  {
    if |ds| > 1 {
      var before, d := ds[..|ds| - 1], ds[|ds| - 1];
      assert ds == before + [d] && forall x :: x in before ==> x in ds;
      LongestOf(before);
    }
  }

  // The longest one is the maximum exactly when some duration is positive, or none is zero, or the last one is; so
  // it always is when no incident ended before it started.
  lemma LongestIsMaxIff(ds: seq<real>)
    requires ds != []
    ensures IsMax(Longest(ds).value, ds) <==> SomeAbove(ds) || 0.0 !in ds || ds[|ds| - 1] == 0.0
    ensures !SomeBelow(ds) ==> IsMax(Longest(ds).value, ds)
  {
    LongestOf(ds);
    assert ds[|ds| - 1] in ds;
  }
}
