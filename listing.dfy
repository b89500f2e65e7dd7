/** Listing every worklog with its ledger and classification, optionally
    keeping only the REMITTED or only the UNREMITTED ones. */
module Listing {
  import opened Wrappers
  import opened Models
  import opened Errors
  import opened Ledger
  import opened Database

  /** One listed worklog: its id, its ledger and its classification. The
      rest of the response (nested segments, timestamps) is formatting. */
  datatype WorkLogView = WorkLogView(worklogId: nat, amounts: Amounts, status: WorkLogStatus)

  datatype WorkLogsPage = WorkLogsPage(data: seq<WorkLogView>, count: nat)

  /** The segments of worklog `l`, in table order. */
  function WorklogSegments(segs: seq<TimeSegment>, l: nat): seq<TimeSegment>
  {
    if segs == [] then []
    else WorklogSegments(segs[..|segs| - 1], l)
         + (if segs[|segs| - 1].worklogId == l then [segs[|segs| - 1]] else [])
  }

  /** The adjustments of worklog `l`, in table order. */
  function WorklogAdjustments(adjs: seq<Adjustment>, l: nat): seq<Adjustment>
  {
    if adjs == [] then []
    else WorklogAdjustments(adjs[..|adjs| - 1], l)
         + (if adjs[|adjs| - 1].worklogId == l then [adjs[|adjs| - 1]] else [])
  }

  /** A worklog's segments are exactly the segments of the table that lie
      on it. */
  lemma {:induction false} WorklogSegmentsExact(segs: seq<TimeSegment>, l: nat)
    ensures forall x :: x in WorklogSegments(segs, l) <==> x in segs && x.worklogId == l
  {
    if segs != [] {
      var prefix := segs[..|segs| - 1];
      WorklogSegmentsExact(prefix, l);
      assert segs == prefix + [segs[|segs| - 1]];
    }
  }

  /** A worklog's adjustments are exactly the adjustments of the table that
      lie on it. */
  lemma {:induction false} WorklogAdjustmentsExact(adjs: seq<Adjustment>, l: nat)
    ensures forall x :: x in WorklogAdjustments(adjs, l) <==> x in adjs && x.worklogId == l
  {
    if adjs != [] {
      var prefix := adjs[..|adjs| - 1];
      WorklogAdjustmentsExact(prefix, l);
      assert adjs == prefix + [adjs[|adjs| - 1]];
    }
  }

  /** The ledger of worklog `l` as stored. */
  function WorklogLedger(segs: seq<TimeSegment>, adjs: seq<Adjustment>, wls: seq<WorkLog>, l: nat): Amounts
    requires l < |wls|
  {
    LedgerAmounts(WorklogSegments(segs, l), WorklogAdjustments(adjs, l), wls[l].hourlyRate)
  }

  function ViewOf(segs: seq<TimeSegment>, adjs: seq<Adjustment>, wls: seq<WorkLog>, l: nat): WorkLogView
    requires l < |wls|
  {
    var a := WorklogLedger(segs, adjs, wls, l);
    WorkLogView(l, a, Classify(a))
  }

  /** The accepted filter values: none, REMITTED or UNREMITTED. */
  predicate FilterValid(filter: Option<string>)
  {
    filter.None? || filter.value == "REMITTED" || filter.value == "UNREMITTED"
  }

  /** The classification an accepted filter asks for, if any. */
  function ParseFilter(filter: Option<string>): (r: Result<Option<WorkLogStatus>, Error>)
    ensures r.Failure? <==> !FilterValid(filter)
    ensures r.Failure? ==> r.error == InvalidStatusFilter
    ensures r.Success? ==> (r.value.None? <==> filter.None?)
    ensures r.Success? && r.value.Some? ==> r.value.value.Value() == filter.value
  {
    if filter.None? then Success(None)
    else if filter.value == "REMITTED" then Success(Some(RemittedStatus))
    else if filter.value == "UNREMITTED" then Success(Some(UnremittedStatus))
    else Failure(InvalidStatusFilter)
  }

  /** The filter keeps a view when it asks for nothing or for the view's
      classification. */
  predicate Shown(want: Option<WorkLogStatus>, v: WorkLogView)
  {
    want.None? || v.status == want.value
  }

  /** Comparing classifications is comparing their names: an accepted
      filter keeps a view exactly when no filter is given or the filter is
      the name of the view's classification. */
  lemma ShownByName(filter: Option<string>, v: WorkLogView)
    requires FilterValid(filter)
    ensures Shown(ParseFilter(filter).value, v) <==> filter.None? || v.status.Value() == filter.value
  {
  }

  /** The view of every worklog of the store, in table order. */
  function Views(segs: seq<TimeSegment>, adjs: seq<Adjustment>, wls: seq<WorkLog>): seq<WorkLogView>
  {
    seq(|wls|, l requires 0 <= l < |wls| => ViewOf(segs, adjs, wls, l))
  }

  /** The views of the worklogs below `n` that the filter keeps, in table
      order. */
  function Listed(segs: seq<TimeSegment>, adjs: seq<Adjustment>, wls: seq<WorkLog>, want: Option<WorkLogStatus>, n: nat)
    : seq<WorkLogView>
    requires n <= |wls|
  {
    if n == 0 then []
    else
      var v := ViewOf(segs, adjs, wls, n - 1);
      Listed(segs, adjs, wls, want, n - 1) + (if Shown(want, v) then [v] else [])
  }

  /** The views of `vs` that the filter keeps, in order. */
  function Kept(want: Option<WorkLogStatus>, vs: seq<WorkLogView>): seq<WorkLogView>
  {
    if vs == [] then []
    else
      var v := vs[|vs| - 1];
      Kept(want, vs[..|vs| - 1]) + (if Shown(want, v) then [v] else [])
  }

  /** Some worklog has an ACTIVE segment that ends before it starts. */
  predicate SomeWorklogUnpriceable(segs: seq<TimeSegment>, wls: seq<WorkLog>)
  {
    exists l :: 0 <= l < |wls| && !Priceable(WorklogSegments(segs, l))
  }

  /** Every worklog below `n` can be priced. */
  predicate PricedBelow(segs: seq<TimeSegment>, n: nat)
  {
    n == 0 || (PricedBelow(segs, n - 1) && Priceable(WorklogSegments(segs, n - 1)))
  }

  lemma {:induction false} PricedBelowAll(segs: seq<TimeSegment>, n: nat)
    requires PricedBelow(segs, n)
    ensures forall l :: 0 <= l < n ==> Priceable(WorklogSegments(segs, l))
  {
    if n > 0 {
      PricedBelowAll(segs, n - 1);
    }
  }

  /** Lists the worklogs of the store. Fails on an invalid filter, and on a
      worklog that cannot be priced even if the filter would drop it. */
  method ListAllWorklogs(db: Store, filter: Option<string>) returns (r: Result<WorkLogsPage, Error>)
    ensures !FilterValid(filter) ==> r == Failure(InvalidStatusFilter)
    ensures r.Failure? <==> !FilterValid(filter) || SomeWorklogUnpriceable(db.segments, db.worklogs)
    ensures r.Failure? && FilterValid(filter) ==> r.error == NegativeDuration
    ensures r.Success? ==> r.value.count == |r.value.data|
    ensures r.Success? ==>
      r.value.data == Kept(ParseFilter(filter).value, Views(db.segments, db.adjustments, db.worklogs))
  {
    var parsed := ParseFilter(filter);
    if parsed.Failure? {
      return Failure(parsed.error);
    }
    var want := parsed.value;
    var result: seq<WorkLogView> := [];
    var l := 0;
    while l < |db.worklogs|
      invariant 0 <= l <= |db.worklogs|
      invariant result == Listed(db.segments, db.adjustments, db.worklogs, want, l)
      invariant PricedBelow(db.segments, l)
    {
      var wl := db.worklogs[l];
      var amounts := WorklogAmounts(wl.hourlyRate, WorklogSegments(db.segments, l), WorklogAdjustments(db.adjustments, l));
      if amounts.Failure? {
        return Failure(amounts.error);
      }
      var status := Classify(amounts.value);
      if want.Some? && status != want.value {
        l := l + 1;
        continue;
      }
      result := result + [WorkLogView(l, amounts.value, status)];
      l := l + 1;
    }
    ListedKept(db.segments, db.adjustments, db.worklogs, want, l);
    assert Views(db.segments, db.adjustments, db.worklogs)[..l] == Views(db.segments, db.adjustments, db.worklogs);
    PricedBelowAll(db.segments, l);
    return Success(WorkLogsPage(result, |result|));
  }

  /** The listing built worklog by worklog is the filter applied to the
      views of the first `n` worklogs. */
  lemma {:induction false} ListedKept(segs: seq<TimeSegment>, adjs: seq<Adjustment>, wls: seq<WorkLog>,
                                      want: Option<WorkLogStatus>, n: nat)
    requires n <= |wls|
    ensures Listed(segs, adjs, wls, want, n) == Kept(want, Views(segs, adjs, wls)[..n])
  {
    if n > 0 {
      var all := Views(segs, adjs, wls);
      ListedKept(segs, adjs, wls, want, n - 1);
      assert all[..n][..n - 1] == all[..n - 1];
      assert all[..n][n - 1] == ViewOf(segs, adjs, wls, n - 1);
    }
  }

  /** The views of a table numbered by position. */
  predicate Numbered(vs: seq<WorkLogView>)
  {
    forall i :: 0 <= i < |vs| ==> vs[i].worklogId == i
  }

  /** Every kept view is one of the views, and the filter keeps it. */
  lemma {:induction false} KeptFrom(want: Option<WorkLogStatus>, vs: seq<WorkLogView>)
    ensures forall k :: 0 <= k < |Kept(want, vs)| ==> Shown(want, Kept(want, vs)[k]) && Kept(want, vs)[k] in vs
  {
    if vs != [] {
      var prefix := vs[..|vs| - 1];
      KeptFrom(want, prefix);
      assert forall x :: x in prefix ==> x in vs;
    }
  }

  /** Kept views of a numbered table lie below its length. */
  lemma KeptBelow(want: Option<WorkLogStatus>, vs: seq<WorkLogView>)
    requires Numbered(vs)
    ensures forall k :: 0 <= k < |Kept(want, vs)| ==> Kept(want, vs)[k].worklogId < |vs|
  {
    KeptFrom(want, vs);
  }

  /** Filtering a numbered table keeps table order, so no worklog is kept
      twice. */
  lemma {:induction false} KeptOrdered(want: Option<WorkLogStatus>, vs: seq<WorkLogView>)
    requires Numbered(vs)
    ensures forall k, k' :: 0 <= k < k' < |Kept(want, vs)| ==> Kept(want, vs)[k].worklogId < Kept(want, vs)[k'].worklogId
  {
    if vs != [] {
      var prefix := vs[..|vs| - 1];
      KeptOrdered(want, prefix);
      KeptBelow(want, prefix);
    }
  }

  /** Worklog `l` is listed somewhere in `vs`. */
  predicate ListsWorklog(vs: seq<WorkLogView>, l: nat)
  {
    exists k :: 0 <= k < |vs| && vs[k].worklogId == l
  }

  lemma ListsAppend(vs: seq<WorkLogView>, tail: seq<WorkLogView>, l: nat)
    ensures ListsWorklog(vs + tail, l) <==> ListsWorklog(vs, l) || ListsWorklog(tail, l)
  {
    if ListsWorklog(vs + tail, l) {
      var k :| 0 <= k < |vs + tail| && (vs + tail)[k].worklogId == l;
      if k >= |vs| {
        assert tail[k - |vs|].worklogId == l;
      }
    }
    if ListsWorklog(tail, l) {
      var k :| 0 <= k < |tail| && tail[k].worklogId == l;
      assert (vs + tail)[|vs| + k].worklogId == l;
    }
    if ListsWorklog(vs, l) {
      var k :| 0 <= k < |vs| && vs[k].worklogId == l;
      assert (vs + tail)[k].worklogId == l;
    }
  }

  /** Filtering a numbered table is exact: worklog `l` is kept if and only
      if it is in the table and the filter keeps its view. */
  lemma {:induction false} KeptExactly(want: Option<WorkLogStatus>, vs: seq<WorkLogView>, l: nat)
    requires Numbered(vs)
    ensures ListsWorklog(Kept(want, vs), l) <==> l < |vs| && Shown(want, vs[l])
  {
    if vs != [] {
      var prefix := vs[..|vs| - 1];
      var v := vs[|vs| - 1];
      var tail := if Shown(want, v) then [v] else [];
      KeptExactly(want, prefix, l);
      ListsAppend(Kept(want, prefix), tail, l);
      if Shown(want, v) && l == |prefix| {
        assert tail[0].worklogId == l;
      }
    }
  }

  /** The listing is exact: worklog `l` is listed if and only if it exists
      and the filter keeps its view, and the listing is in table order. */
  lemma ListedExactly(segs: seq<TimeSegment>, adjs: seq<Adjustment>, wls: seq<WorkLog>, want: Option<WorkLogStatus>, l: nat)
    ensures ListsWorklog(Kept(want, Views(segs, adjs, wls)), l) <==> l < |wls| && Shown(want, ViewOf(segs, adjs, wls, l))
    ensures var vs := Kept(want, Views(segs, adjs, wls));
            forall k, k' :: 0 <= k < k' < |vs| ==> vs[k].worklogId < vs[k'].worklogId
  {
    var all := Views(segs, adjs, wls);
    assert Numbered(all);
    KeptExactly(want, all, l);
    KeptOrdered(want, all);
  }
}
