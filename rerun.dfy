/** Properties of whole runs: a worker's gross covers its net, and a
    COMPLETED run leaves nothing for an immediate second run to pay. */
module Rerun {
  import opened Wrappers
  import opened Models
  import opened Selection
  import opened Settlement
  import opened Ledger
  import opened Listing

  lemma {:induction false} SegmentsGrossCoversNet(segs: seq<TimeSegment>, wls: seq<WorkLog>, ids: seq<nat>)
    ensures SegmentsGross(segs, wls, ids) >= 0
    ensures SegmentsGross(segs, wls, ids) >= SegmentsNet(segs, wls, ids)
  {
    if ids != [] {
      SegmentsGrossCoversNet(segs, wls, ids[..|ids| - 1]);
    }
  }

  lemma {:induction false} AdjustmentsGrossCoversNet(adjs: seq<Adjustment>, ids: seq<nat>)
    ensures AdjustmentsGross(adjs, ids) >= 0
    ensures AdjustmentsGross(adjs, ids) >= AdjustmentsNet(adjs, ids)
  {
    if ids != [] {
      AdjustmentsGrossCoversNet(adjs, ids[..|ids| - 1]);
    }
  }

  /** Gross adds only the positive prices and net all of them, so a
      worker's gross is never negative and never below its net. */
  lemma WorkerGrossCoversNet(segs: seq<TimeSegment>, adjs: seq<Adjustment>, wls: seq<WorkLog>, w: nat)
    ensures WorkerGross(segs, adjs, wls, w) >= 0
    ensures WorkerGross(segs, adjs, wls, w) >= WorkerNet(segs, adjs, wls, w)
  {
    SegmentsGrossCoversNet(segs, wls, WorkerSegments(segs, wls, w));
    AdjustmentsGrossCoversNet(adjs, WorkerAdjustments(adjs, wls, w));
  }

  /** The same holds for the totals of a run's report. */
  lemma {:induction false} TotalGrossCoversNet(segs: seq<TimeSegment>, adjs: seq<Adjustment>, wls: seq<WorkLog>,
                                               ss: seq<BatchSummary>, id0: nat, status: RemittanceStatus, start: Date, end: Date)
    requires AsExpected(segs, adjs, wls, ss, id0, status, start, end)
    ensures SumGross(ss) >= 0 && SumGross(ss) >= SumNet(ss)
  {
    if ss != [] {
      TotalGrossCoversNet(segs, adjs, wls, ss[..|ss| - 1], id0, status, start, end);
      WorkerGrossCoversNet(segs, adjs, wls, ss[|ss| - 1].workerId);
    }
  }

  /** Settling keeps every worklog's owner and rate. */
  predicate SameOwners(wls: seq<WorkLog>, wls': seq<WorkLog>)
  {
    |wls'| == |wls|
    && forall l :: 0 <= l < |wls| ==> wls'[l].workerId == wls[l].workerId && wls'[l].hourlyRate == wls[l].hourlyRate
  }

  lemma SettledWorklogsSameOwners(segs: seq<TimeSegment>, adjs: seq<Adjustment>, wls: seq<WorkLog>, assign: map<nat, nat>)
    ensures SameOwners(wls, SettledWorklogs(segs, adjs, wls, assign))
  {
  }

  /** After settling, a settled worker has no segment left to pick up and
      every other worker has the same ones as before. */
  lemma {:induction false} SettledSegmentIds(segs: seq<TimeSegment>, wls: seq<WorkLog>, wls': seq<WorkLog>,
                                             assign: map<nat, nat>, w: nat, n: nat)
    requires SameOwners(wls, wls') && n <= |segs|
    ensures SegmentIds(SettledSegments(segs, wls, assign), wls', w, n)
            == if w in assign then [] else SegmentIds(segs, wls, w, n)
  {
    if n > 0 {
      SettledSegmentIds(segs, wls, wls', assign, w, n - 1);
      var segs' := SettledSegments(segs, wls, assign);
      var j := n - 1;
      assert SegmentOf(segs', wls', w, j) <==> w !in assign && SegmentOf(segs, wls, w, j);
    }
  }

  lemma {:induction false} SettledAdjustmentIds(adjs: seq<Adjustment>, wls: seq<WorkLog>, wls': seq<WorkLog>,
                                                assign: map<nat, nat>, w: nat, n: nat)
    requires SameOwners(wls, wls') && n <= |adjs|
    ensures AdjustmentIds(SettledAdjustments(adjs, wls, assign), wls', w, n)
            == if w in assign then [] else AdjustmentIds(adjs, wls, w, n)
  {
    if n > 0 {
      SettledAdjustmentIds(adjs, wls, wls', assign, w, n - 1);
      var adjs' := SettledAdjustments(adjs, wls, assign);
      var j := n - 1;
      assert AdjustmentOf(adjs', wls', w, j) <==> w !in assign && AdjustmentOf(adjs, wls, w, j);
    }
  }

  lemma {:induction false} SamePrices(segs: seq<TimeSegment>, wls: seq<WorkLog>, segs': seq<TimeSegment>, wls': seq<WorkLog>,
                                      ids: seq<nat>)
    requires forall i :: 0 <= i < |ids| ==> UnitPrice(segs', wls', ids[i]) == UnitPrice(segs, wls, ids[i])
    ensures SegmentsGross(segs', wls', ids) == SegmentsGross(segs, wls, ids)
    ensures SegmentsNet(segs', wls', ids) == SegmentsNet(segs, wls, ids)
  {
    if ids != [] {
      SamePrices(segs, wls, segs', wls', ids[..|ids| - 1]);
    }
  }

  lemma {:induction false} SameAmounts(adjs: seq<Adjustment>, adjs': seq<Adjustment>, ids: seq<nat>)
    requires forall i :: 0 <= i < |ids| ==> AdjustmentAmount(adjs', ids[i]) == AdjustmentAmount(adjs, ids[i])
    ensures AdjustmentsGross(adjs', ids) == AdjustmentsGross(adjs, ids)
    ensures AdjustmentsNet(adjs', ids) == AdjustmentsNet(adjs, ids)
  {
    if ids != [] {
      SameAmounts(adjs, adjs', ids[..|ids| - 1]);
    }
  }

  /** A worker left unsettled is owed the same after the others are settled. */
  lemma UnsettledWorkerUnchanged(segs: seq<TimeSegment>, adjs: seq<Adjustment>, wls: seq<WorkLog>, assign: map<nat, nat>, w: nat)
    requires w !in assign
    ensures var segs', adjs', wls' :=
              SettledSegments(segs, wls, assign), SettledAdjustments(adjs, wls, assign), SettledWorklogs(segs, adjs, wls, assign);
            && WorkerSegments(segs', wls', w) == WorkerSegments(segs, wls, w)
            && WorkerAdjustments(adjs', wls', w) == WorkerAdjustments(adjs, wls, w)
            && WorkerGross(segs', adjs', wls', w) == WorkerGross(segs, adjs, wls, w)
            && WorkerNet(segs', adjs', wls', w) == WorkerNet(segs, adjs, wls, w)
  {
    var segs', adjs', wls' :=
      SettledSegments(segs, wls, assign), SettledAdjustments(adjs, wls, assign), SettledWorklogs(segs, adjs, wls, assign);
    SettledWorklogsSameOwners(segs, adjs, wls, assign);
    SettledSegmentIds(segs, wls, wls', assign, w, |segs|);
    SettledAdjustmentIds(adjs, wls, wls', assign, w, |adjs|);
    var segIds, adjIds := WorkerSegments(segs, wls, w), WorkerAdjustments(adjs, wls, w);
    WorkerSegmentsSelected(segs, wls, w);
    WorkerAdjustmentsSelected(adjs, wls, w);
    SamePrices(segs, wls, segs', wls', segIds);
    SameAmounts(adjs, adjs', adjIds);
  }

  /** Once every worker a run pays is settled, a run on the settled tables
      pays nobody: the paid workers have nothing left to pick up, and the
      workers it passed over are still owed nothing. */
  lemma SettledPaysNobody(segs: seq<TimeSegment>, adjs: seq<Adjustment>, wls: seq<WorkLog>, assign: map<nat, nat>)
    requires forall w :: w in PaidWorkers(segs, adjs, wls) ==> w in assign
    ensures PaidWorkers(SettledSegments(segs, wls, assign), SettledAdjustments(adjs, wls, assign),
                        SettledWorklogs(segs, adjs, wls, assign)) == {}
  {
    var segs', adjs', wls' :=
      SettledSegments(segs, wls, assign), SettledAdjustments(adjs, wls, assign), SettledWorklogs(segs, adjs, wls, assign);
    forall w ensures w !in PaidWorkers(segs', adjs', wls') {
      SelectedWorkersHaveUnits(segs', adjs', wls', w);
      if w in assign {
        SettledWorklogsSameOwners(segs, adjs, wls, assign);
        SettledSegmentIds(segs, wls, wls', assign, w, |segs|);
        SettledAdjustmentIds(adjs, wls, wls', assign, w, |adjs|);
      } else {
        SelectedWorkersHaveUnits(segs, adjs, wls, w);
        UnsettledWorkerUnchanged(segs, adjs, wls, assign, w);
      }
    }
  }

  /** An immediate second COMPLETED run creates no remittance and changes
      nothing: whatever it reports is for the workers the settled tables
      still owe, of whom there are none. */
  lemma SecondRunCreatesNothing(segs: seq<TimeSegment>, adjs: seq<Adjustment>, wls: seq<WorkLog>,
                                ss: seq<BatchSummary>, ss2: seq<BatchSummary>)
    requires SummaryWorkers(ss) == PaidWorkers(segs, adjs, wls)
    requires var assign := AssignmentOf(ss);
             SummaryWorkers(ss2) == PaidWorkers(SettledSegments(segs, wls, assign), SettledAdjustments(adjs, wls, assign),
                                                SettledWorklogs(segs, adjs, wls, assign))
    ensures ss2 == []
    ensures var assign := AssignmentOf(ss);
            var segs', adjs', wls' :=
              SettledSegments(segs, wls, assign), SettledAdjustments(adjs, wls, assign), SettledWorklogs(segs, adjs, wls, assign);
            && SettledSegments(segs', wls', AssignmentOf(ss2)) == segs'
            && SettledAdjustments(adjs', wls', AssignmentOf(ss2)) == adjs'
            && SettledWorklogs(segs', adjs', wls', AssignmentOf(ss2)) == wls'
  {
    var assign := AssignmentOf(ss);
    AssignmentOfSummaries(ss);
    SettledPaysNobody(segs, adjs, wls, assign);
    var segs', adjs', wls' :=
      SettledSegments(segs, wls, assign), SettledAdjustments(adjs, wls, assign), SettledWorklogs(segs, adjs, wls, assign);
    NothingSettled(segs', adjs', wls');
  }

  /** After a COMPLETED run the listing shows nothing unremitted on any
      worklog of a paid worker, and reports it REMITTED unless its total is
      0. */
  lemma PaidWorklogsSettled(segs: seq<TimeSegment>, adjs: seq<Adjustment>, wls: seq<WorkLog>, assign: map<nat, nat>, l: nat)
    requires l < |wls| && wls[l].workerId in assign
    ensures var segs', adjs', wls' :=
              SettledSegments(segs, wls, assign), SettledAdjustments(adjs, wls, assign), SettledWorklogs(segs, adjs, wls, assign);
            var v := ViewOf(segs', adjs', wls', l);
            v.amounts.unremitted == 0 && (v.status == RemittedStatus <==> v.amounts.total != 0)
  {
    var segs', adjs', wls' :=
      SettledSegments(segs, wls, assign), SettledAdjustments(adjs, wls, assign), SettledWorklogs(segs, adjs, wls, assign);
    var onSegs, onAdjs := WorklogSegments(segs', l), WorklogAdjustments(adjs', l);
    WorklogSegmentsExact(segs', l);
    WorklogAdjustmentsExact(adjs', l);
    forall i | 0 <= i < |onSegs| && onSegs[i].status == Active ensures onSegs[i].settlementStatus == Remitted {
      assert onSegs[i] in segs';
      var j :| 0 <= j < |segs'| && segs'[j] == onSegs[i];
      assert segs[j].worklogId == l;
    }
    forall i | 0 <= i < |onAdjs| ensures onAdjs[i].settlementStatus == Remitted {
      assert onAdjs[i] in adjs';
      var j :| 0 <= j < |adjs'| && adjs'[j] == onAdjs[i];
      assert adjs[j].worklogId == l;
    }
    FullySettledIsRemitted(onSegs, onAdjs, wls'[l].hourlyRate);
  }
}
