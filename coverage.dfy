/**
 * The functional coverage collector (tb/env/base/coverage.py): named
 * groups of coverage points, each point either hit-counted against a
 * target or split into named bins; hits update a point and then run the
 * callbacks registered for it; percentages are unweighted means.
 *
 * Python's dicts keep insertion order, and assigning to an existing key
 * keeps its place: they are modelled as association lists with distinct
 * keys (Dict below). The collector's percentages are Python floats; here
 * they are exact reals. Callbacks are foreign callables, identified by
 * number (see Callbacks).
 */
module Coverage {
  import opened Wrappers
  import opened Callbacks

  // ---------------------------------------------------------------------
  // Insertion-ordered dictionaries.

  type Dict<V> = seq<(string, V)>

  predicate DistinctKeys<V>(d: Dict<V>)
  {
    forall i, j :: 0 <= i < j < |d| ==> d[i].0 != d[j].0
  }

  /** Where key k sits in d: its first (with distinct keys, only) position. */
  function IndexOf<V>(d: Dict<V>, k: string): (r: Option<nat>)
    ensures r.Some? ==> r.value < |d| && d[r.value].0 == k && forall j :: 0 <= j < r.value ==> d[j].0 != k
    ensures r.None? ==> forall j :: 0 <= j < |d| ==> d[j].0 != k
  {
    if d == [] then None
    else if d[0].0 == k then Some(0)
    else
      var rest := IndexOf(d[1..], k);
      if rest.Some? then Some(rest.value + 1) else None
  }

  /** The first position holding k is where IndexOf finds it. */
  lemma IndexOfAt<V>(d: Dict<V>, k: string, i: nat)
    requires i < |d| && d[i].0 == k && forall j :: 0 <= j < i ==> d[j].0 != k
    ensures IndexOf(d, k) == Some(i)
  {
    var r := IndexOf(d, k);
    assert r.Some?;
  }

  /** d.get(k) */
  function Lookup<V>(d: Dict<V>, k: string): (r: Option<V>)
    ensures r.None? <==> forall i :: 0 <= i < |d| ==> d[i].0 != k
    ensures r.Some? ==> exists i :: 0 <= i < |d| && d[i] == (k, r.value)
  {
    var i := IndexOf(d, k);
    if i.Some? then Some(d[i.value].1) else None
  }

  /** d[k] = v: a present key keeps its place, a new key goes last. */
  function Put<V>(d: Dict<V>, k: string, v: V): (r: Dict<V>)
    ensures Lookup(d, k).Some? ==> |r| == |d|
    ensures Lookup(d, k).None? ==> r == d + [(k, v)]
  {
    var i := IndexOf(d, k);
    if i.Some? then d[i.value := (k, v)] else d + [(k, v)]
  }

  /** After d[k] = v, k maps to v, every other key keeps its value, and the keys stay distinct. */
  lemma PutLookup<V>(d: Dict<V>, k: string, v: V, other: string)
    requires DistinctKeys(d)
    ensures Lookup(Put(d, k, v), k) == Some(v)
    ensures other != k ==> Lookup(Put(d, k, v), other) == Lookup(d, other)
    ensures DistinctKeys(Put(d, k, v))
  {
    PutFinds(d, k, v);
    if other != k {
      PutKeeps(d, k, v, other);
    }
    PutDistinct(d, k, v);
  }

  /** d[k] = v keeps every key in its place. */
  lemma PutSameKeys<V>(d: Dict<V>, k: string, v: V)
    ensures forall j :: 0 <= j < |d| ==> Put(d, k, v)[j].0 == d[j].0
  {
  }

  lemma PutFinds<V>(d: Dict<V>, k: string, v: V)
    ensures Lookup(Put(d, k, v), k) == Some(v)
  {
    var e := Put(d, k, v);
    var i := IndexOf(d, k);
    PutSameKeys(d, k, v);
    if i.Some? {
      IndexOfAt(e, k, i.value);
    } else {
      IndexOfAt(e, k, |d|);
    }
  }

  lemma PutKeeps<V>(d: Dict<V>, k: string, v: V, other: string)
    requires other != k
    ensures Lookup(Put(d, k, v), other) == Lookup(d, other)
  {
    var e := Put(d, k, v);
    PutSameKeys(d, k, v);
    var o := IndexOf(d, other);
    if o.Some? {
      IndexOfAt(e, other, o.value);
    } else {
      assert forall j :: 0 <= j < |e| ==> e[j].0 != other;
    }
  }

  lemma PutDistinct<V>(d: Dict<V>, k: string, v: V)
    requires DistinctKeys(d)
    ensures DistinctKeys(Put(d, k, v))
  {
    PutSameKeys(d, k, v);
  }

  // ---------------------------------------------------------------------
  // Points and groups.

  datatype CoverageType = Feature | Cross | Transition

  datatype CoveragePoint = CoveragePoint(
    name: string, coverageType: CoverageType, description: string, targetHits: int, hits: nat, bins: Dict<nat>)

  datatype CoverageGroup = CoverageGroup(name: string, description: string, points: Dict<CoveragePoint>)

  /** How many bins have been hit at least once. */
  function HitBins(bins: Dict<nat>): (r: nat)
    ensures r <= |bins|
  {
    if bins == [] then 0 else (if bins[0].1 > 0 then 1 else 0) + HitBins(bins[1..])
  }

  /** The target rule: all or nothing. */
  function TargetPercent(p: CoveragePoint): real
  {
    if p.hits >= p.targetHits then 100.0 else 0.0
  }

  /**
   * CoveragePoint.coverage_percent: a FEATURE point, and a point without
   * bins, is 100 once its hits reach the target and 0 before, whatever
   * its bins; any other point is the share of bins hit.
   */
  function PointPercent(p: CoveragePoint): (r: real)
    ensures 0.0 <= r <= 100.0
    ensures p.coverageType == Feature || p.bins == [] ==> (r == 100.0 <==> p.hits >= p.targetHits)
    ensures p.coverageType == Feature || p.bins == [] ==> (r == 0.0 <==> p.hits < p.targetHits)
    ensures p.coverageType != Feature && p.bins != [] ==> r * |p.bins| as real == 100.0 * HitBins(p.bins) as real
  {
    if p.coverageType == Feature then TargetPercent(p)
    else if p.bins != [] then (HitBins(p.bins) as real / |p.bins| as real) * 100.0
    else TargetPercent(p)
  }

  function Sum(s: seq<real>): real
  {
    if s == [] then 0.0 else s[0] + Sum(s[1..])
  }

  lemma {:induction false} SumBounds(s: seq<real>)
    requires forall i :: 0 <= i < |s| ==> 0.0 <= s[i] <= 100.0
    ensures 0.0 <= Sum(s) <= 100.0 * |s| as real
  {
    if s != [] {
      SumBounds(s[1..]);
    }
  }

  /** The unweighted mean of percentages, 100 for none. */
  function Mean(s: seq<real>): (r: real)
    requires forall i :: 0 <= i < |s| ==> 0.0 <= s[i] <= 100.0
    ensures 0.0 <= r <= 100.0
    ensures s != [] ==> r * |s| as real == Sum(s)
  {
    if s == [] then 100.0
    else
      SumBounds(s);
      Sum(s) / |s| as real
  }

  function PointPercents(points: Dict<CoveragePoint>): (r: seq<real>)
    ensures |r| == |points| && forall i :: 0 <= i < |r| ==> r[i] == PointPercent(points[i].1)
  {
    seq(|points|, i requires 0 <= i < |points| => PointPercent(points[i].1))
  }

  /** CoverageGroup.coverage_percent: the unweighted mean of its points, 100 for an empty group. */
  function GroupPercent(g: CoverageGroup): (r: real)
    ensures 0.0 <= r <= 100.0
    ensures g.points == [] ==> r == 100.0
    ensures g.points != [] ==> r * |g.points| as real == Sum(PointPercents(g.points))
  {
    Mean(PointPercents(g.points))
  }

  function GroupPercents(groups: Dict<CoverageGroup>): (r: seq<real>)
    ensures |r| == |groups| && forall i :: 0 <= i < |r| ==> r[i] == GroupPercent(groups[i].1)
  {
    seq(|groups|, i requires 0 <= i < |groups| => GroupPercent(groups[i].1))
  }

  /** A point after one hit: no bin (or "") counts a hit, a known bin counts in that bin, an unknown bin nothing. */
  function Hit(p: CoveragePoint, bin: Option<string>): (r: CoveragePoint)
    ensures r.name == p.name && r.coverageType == p.coverageType && r.targetHits == p.targetHits
    ensures bin.None? || bin == Some("") ==> r == p.(hits := p.hits + 1)
    ensures bin.Some? && bin.value != "" ==>
      (r.hits == p.hits
       && (Lookup(p.bins, bin.value).None? ==> r == p)
       && (Lookup(p.bins, bin.value).Some? ==> r.bins == Put(p.bins, bin.value, Lookup(p.bins, bin.value).value + 1)))
  {
    if bin.Some? && bin.value != "" then
      var count := Lookup(p.bins, bin.value);
      if count.Some? then p.(bins := Put(p.bins, bin.value, count.value + 1)) else p
    else p.(hits := p.hits + 1)
  }

  /** {bin_name: 0 for bin_name in bins}: a repeated name keeps its first place. */
  function ZeroBins(names: seq<string>): (r: Dict<nat>)
    ensures DistinctKeys(r)
    ensures forall i :: 0 <= i < |r| ==> r[i].1 == 0
    ensures forall n :: n in names <==> Lookup(r, n).Some?
  {
    if names == [] then []
    else
      var front := ZeroBins(names[..|names| - 1]);
      var last := names[|names| - 1];
      assert names == names[..|names| - 1] + [last];
      if Lookup(front, last).Some? then front
      else
        PutLookupNew(front, last, 0);
        front + [(last, 0)]
  }

  lemma PutLookupNew<V>(d: Dict<V>, k: string, v: V)
    requires DistinctKeys(d) && Lookup(d, k).None?
    ensures DistinctKeys(d + [(k, v)])
    ensures forall n :: Lookup(d + [(k, v)], n).Some? <==> Lookup(d, n).Some? || n == k
  {
    forall n
      ensures Lookup(d + [(k, v)], n).Some? <==> Lookup(d, n).Some? || n == k
    {
      var e := d + [(k, v)];
      if Lookup(d, n).None? && n != k {
        assert forall i :: 0 <= i < |e| ==> e[i].0 != n;
      }
      if n == k {
        assert e[|d|].0 == k;
      }
      if Lookup(d, n).Some? {
        var i :| 0 <= i < |d| && d[i].0 == n;
        assert e[i].0 == n;
      }
    }
  }

  /** The "group.point" key of a point's callbacks. */
  function CallbackKey(group: string, point: string): string
  {
    group + "." + point
  }

  // ---------------------------------------------------------------------
  // The collector.

  class CoverageCollector {
    var groups: Dict<CoverageGroup>
    /** The callbacks per "group.point" key; a missing key has none. */
    var callbacks: map<string, seq<nat>>
    var enabled: bool
    /** Every callback call made so far, in order, with the point after the hit and the bin name. */
    var calls: seq<Call<(CoveragePoint, Option<string>)>>

    ghost predicate Valid()
      reads this
    {
      GroupsValid(groups)
    }

    constructor ()
      ensures Valid() && groups == [] && callbacks == map[] && enabled && calls == []
    {
      groups := [];
      callbacks := map[];
      enabled := true;
      calls := [];
    }

    function CallbacksFor(key: string): seq<nat>
      reads this
    {
      if key in callbacks then callbacks[key] else []
    }

    /** create_group: a new empty group, replacing one of the same name in its place. */
    method CreateGroup(groupName: string, description: string) returns (g: CoverageGroup)
      requires Valid()
      modifies this`groups
      ensures Valid()
      ensures g == CoverageGroup(groupName, description, [])
      ensures groups == Put(old(groups), groupName, g)
    {
      g := CoverageGroup(groupName, description, []);
      PutGroupValid(groups, groupName, g);
      groups := Put(groups, groupName, g);
    }

    /**
     * add_coverage_point: create a missing group, then put a fresh point
     * (no hits, every listed bin at 0) in the group, replacing one of the
     * same name.
     */
    method AddCoveragePoint(groupName: string, pointName: string, coverageType: CoverageType, description: string,
                            targetHits: int, bins: Option<seq<string>>)
      requires Valid()
      modifies this`groups
      ensures Valid()
      ensures var point := CoveragePoint(pointName, coverageType, description, targetHits, 0,
                                         if bins.Some? && bins.value != [] then ZeroBins(bins.value) else []);
        var group := if Lookup(old(groups), groupName).Some? then Lookup(old(groups), groupName).value
                     else CoverageGroup(groupName, "", []);
        groups == Put(old(groups), groupName, group.(points := Put(group.points, pointName, point)))
    {
      if Lookup(groups, groupName).None? {
        var _ := CreateGroup(groupName, "");
        PutLookup(old(groups), groupName, CoverageGroup(groupName, "", []), groupName);
      }
      var point := CoveragePoint(pointName, coverageType, description, targetHits, 0, []);
      if bins.Some? && bins.value != [] {
        point := point.(bins := ZeroBins(bins.value));
      }
      var group := Lookup(groups, groupName).value;
      LookupValid(groups, groupName);
      PutDistinct(group.points, pointName, point);
      var updated := group.(points := Put(group.points, pointName, point));
      PutGroupValid(groups, groupName, updated);
      PutPut(old(groups), groupName, CoverageGroup(groupName, "", []), updated);
      groups := Put(groups, groupName, updated);
    }

    /**
     * hit_coverage_point: nothing while disabled or for an unknown group
     * or point; otherwise update the point, then run the point's
     * callbacks in order with the updated point, even when the bin was
     * unknown.
     */
    method HitCoveragePoint(groupName: string, pointName: string, bin: Option<string>, raises: (nat, (CoveragePoint, Option<string>)) -> bool)
      requires Valid()
      modifies this`groups, this`calls
      ensures Valid()
      ensures var group := Lookup(old(groups), groupName);
        var point := if group.Some? then Lookup(group.value.points, pointName) else None;
        if !old(enabled) || point.None? then groups == old(groups) && calls == old(calls)
        else
          var hit := Hit(point.value, bin);
          && groups == Put(old(groups), groupName, group.value.(points := Put(group.value.points, pointName, hit)))
          && calls == old(calls) + Dispatch(CallbacksFor(CallbackKey(groupName, pointName)), (hit, bin), raises)
    {
      if !enabled {
        return;
      }
      var group := Lookup(groups, groupName);
      if group.None? {
        return;
      }
      var point := Lookup(group.value.points, pointName);
      if point.None? {
        return;
      }
      var hit := Hit(point.value, bin);
      LookupValid(groups, groupName);
      PutDistinct(group.value.points, pointName, hit);
      var updated := group.value.(points := Put(group.value.points, pointName, hit));
      PutGroupValid(groups, groupName, updated);
      groups := Put(groups, groupName, updated);
      var made := RunIsolated(CallbacksFor(CallbackKey(groupName, pointName)), (hit, bin), raises);
      calls := calls + made;
    }

    /** add_callback: append to the point's callback list. */
    method AddCallback(groupName: string, pointName: string, callback: nat)
      modifies this`callbacks
      ensures callbacks == old(callbacks)[CallbackKey(groupName, pointName) := old(CallbacksFor(CallbackKey(groupName, pointName))) + [callback]]
    {
      var key := CallbackKey(groupName, pointName);
      callbacks := callbacks[key := CallbacksFor(key) + [callback]];
    }

    method EnableCoverage(enabled: bool)
      modifies this`enabled
      ensures this.enabled == enabled
    {
      this.enabled := enabled;
    }

    /**
     * get_coverage_percent: a named group's percentage (0 for an unknown
     * name); with no name, or the empty name, the unweighted mean over
     * groups (100 for none).
     */
    function GetCoveragePercent(groupName: Option<string>): (r: real)
      reads this
      ensures 0.0 <= r <= 100.0
      ensures groupName.Some? && groupName.value != "" ==>
        r == (if Lookup(groups, groupName.value).Some? then GroupPercent(Lookup(groups, groupName.value).value) else 0.0)
      ensures (groupName.None? || groupName == Some("")) && groups == [] ==> r == 100.0
      ensures (groupName.None? || groupName == Some("")) && groups != [] ==> r * |groups| as real == Sum(GroupPercents(groups))
    {
      if groupName.Some? && groupName.value != "" then
        var g := Lookup(groups, groupName.value);
        if g.Some? then GroupPercent(g.value) else 0.0
      else Mean(GroupPercents(groups))
    }
  }

  /** Group names are distinct, and so are the point names in each group. */
  ghost predicate GroupsValid(groups: Dict<CoverageGroup>)
  {
    DistinctKeys(groups) && forall i :: 0 <= i < |groups| ==> DistinctKeys(groups[i].1.points)
  }

  /** Putting a group with distinct point names keeps the groups valid. */
  lemma PutGroupValid(groups: Dict<CoverageGroup>, k: string, g: CoverageGroup)
    requires GroupsValid(groups) && DistinctKeys(g.points)
    ensures GroupsValid(Put(groups, k, g))
  {
    PutDistinct(groups, k, g);
    PutValid(groups, k, g);
  }

  /** Looking up a group of a valid collector gives a group whose point names are distinct. */
  lemma LookupValid(groups: Dict<CoverageGroup>, k: string)
    requires GroupsValid(groups)
    ensures Lookup(groups, k).Some? ==> DistinctKeys(Lookup(groups, k).value.points)
  {
  }

  lemma PutValid<V>(d: Dict<V>, k: string, v: V)
    ensures forall i :: 0 <= i < |Put(d, k, v)| ==> Put(d, k, v)[i] == (k, v) || Put(d, k, v)[i] in d
  {
  }

  /** Putting a new key twice is putting the second value. */
  lemma PutPut<V>(d: Dict<V>, k: string, v: V, w: V)
    ensures Lookup(d, k).None? ==> Put(Put(d, k, v), k, w) == Put(d, k, w)
  {
    if Lookup(d, k).None? {
      IndexOfAt(d + [(k, v)], k, |d|);
    }
  }

  /** Raising one bin's count never lowers the number of bins hit. */
  lemma {:induction false} HitBinsGrow(bins: Dict<nat>, i: nat, k: string, c: nat)
    requires i < |bins| && c >= bins[i].1
    ensures HitBins(bins[i := (k, c)]) >= HitBins(bins)
  {
    if i > 0 {
      HitBinsGrow(bins[1..], i - 1, k, c);
      assert bins[i := (k, c)][1..] == bins[1..][i - 1 := (k, c)];
    }
  }

  lemma ShareMonotone(before: real, after: real, n: real)
    requires n > 0.0 && after >= before
    ensures (after / n) * 100.0 >= (before / n) * 100.0
  {
    assert after / n >= before / n;
  }

  /** A hit never lowers a point's coverage. */
  lemma HitMonotone(p: CoveragePoint, bin: Option<string>)
    ensures PointPercent(Hit(p, bin)) >= PointPercent(p)
  {
    if bin.Some? && bin.value != "" {
      var i := IndexOf(p.bins, bin.value);
      if i.Some? {
        HitBinsGrow(p.bins, i.value, bin.value, p.bins[i.value].1 + 1);
        if p.coverageType != Feature {
          ShareMonotone(HitBins(p.bins) as real, HitBins(Hit(p, bin).bins) as real, |p.bins| as real);
        }
      }
    }
  }

  /** With a target of 10, a FEATURE point is at 0 after 9 hits and at 100 after 10. */
  lemma FeatureTarget(p: CoveragePoint)
    requires p.coverageType == Feature && p.targetHits == 10
    ensures p.hits == 9 ==> PointPercent(p) == 0.0
    ensures p.hits == 10 ==> PointPercent(p) == 100.0
  {
  }
}
