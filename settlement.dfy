/** How the specification of a run in module Selection grows one worker at
    a time: which workers are picked up, when the run can price everything,
    and what settling one more worker does to the three settled tables. */
module Settlement {
  import opened Wrappers
  import opened Models
  import opened Selection

  /** A worker owns a picked-up unit exactly when one of its two lists is
      non-empty. */
  lemma SelectedWorkersHaveUnits(segs: seq<TimeSegment>, adjs: seq<Adjustment>, wls: seq<WorkLog>, w: nat)
    ensures w in SelectedWorkers(segs, adjs, wls)
            <==> WorkerSegments(segs, wls, w) != [] || WorkerAdjustments(adjs, wls, w) != []
  {
    var segIds := WorkerSegments(segs, wls, w);
    var adjIds := WorkerAdjustments(adjs, wls, w);
    if w in SelectedWorkers(segs, adjs, wls) {
      if j :| 0 <= j < |segs| && SegmentSelected(segs, wls, j) && wls[segs[j].worklogId].workerId == w {
        SegmentIdsExact(segs, wls, w, |segs|, j);
      } else {
        var j :| 0 <= j < |adjs| && AdjustmentSelected(adjs, wls, j) && wls[adjs[j].worklogId].workerId == w;
        AdjustmentIdsExact(adjs, wls, w, |adjs|, j);
      }
    }
    if segIds != [] {
      var j := segIds[0];
      SegmentIdsExact(segs, wls, w, |segs|, j);
      assert wls[segs[j].worklogId].workerId in SelectedWorkers(segs, adjs, wls);
    }
    if adjIds != [] {
      var j := adjIds[0];
      AdjustmentIdsExact(adjs, wls, w, |adjs|, j);
      assert wls[adjs[j].worklogId].workerId in SelectedWorkers(segs, adjs, wls);
    }
  }

  /** The paid workers are the workers with units that are not passed over,
      whatever set of candidates the units were grouped into. */
  lemma PaidWorkersExactly(segs: seq<TimeSegment>, adjs: seq<Adjustment>, wls: seq<WorkLog>, workers: set<nat>)
    requires forall w :: WorkerSegments(segs, wls, w) != [] || WorkerAdjustments(adjs, wls, w) != [] ==> w in workers
    ensures forall w :: w in PaidWorkers(segs, adjs, wls) <==> w in workers && !Skipped(segs, adjs, wls, w)
  {
    forall w ensures w in PaidWorkers(segs, adjs, wls) <==> w in workers && !Skipped(segs, adjs, wls, w) {
      SelectedWorkersHaveUnits(segs, adjs, wls, w);
    }
  }

  /** The run can price everything it picks up exactly when it can price
      every worker's segment list. */
  lemma PriceableByWorker(segs: seq<TimeSegment>, wls: seq<WorkLog>)
    ensures AllSelectedPriceable(segs, wls) <==> forall w :: IdsPriceable(segs, WorkerSegments(segs, wls, w))
  {
    if AllSelectedPriceable(segs, wls) {
      forall w ensures IdsPriceable(segs, WorkerSegments(segs, wls, w)) {
        WorkerSegmentsSelected(segs, wls, w);
      }
    } else {
      var j :| 0 <= j < |segs| && SegmentSelected(segs, wls, j) && segs[j].endTime < segs[j].startTime;
      var w := wls[segs[j].worklogId].workerId;
      var ids := WorkerSegments(segs, wls, w);
      SegmentIdsExact(segs, wls, w, |segs|, j);
      var i :| 0 <= i < |ids| && ids[i] == j;
      assert !IdsPriceable(segs, ids);
    }
  }

  /** Units of worker `w` add nothing to a worklog of another worker and do
      not link it. */
  lemma {:induction false} ForeignSegments(segs: seq<TimeSegment>, wls: seq<WorkLog>, ids: seq<nat>, w: nat, l: nat)
    requires forall i :: 0 <= i < |ids| ==> SegmentOf(segs, wls, w, ids[i])
    requires l < |wls| && wls[l].workerId != w
    ensures SegmentsOn(segs, wls, ids, l) == 0 && l !in SegmentWorklogs(segs, ids)
  {
    if ids != [] {
      var prefix := ids[..|ids| - 1];
      assert forall i :: 0 <= i < |prefix| ==> prefix[i] == ids[i];
      ForeignSegments(segs, wls, prefix, w, l);
    }
  }

  lemma {:induction false} ForeignAdjustments(adjs: seq<Adjustment>, wls: seq<WorkLog>, ids: seq<nat>, w: nat, l: nat)
    requires forall i :: 0 <= i < |ids| ==> AdjustmentOf(adjs, wls, w, ids[i])
    requires l < |wls| && wls[l].workerId != w
    ensures AdjustmentsOn(adjs, ids, l) == 0
  {
    if ids != [] {
      var prefix := ids[..|ids| - 1];
      assert forall i :: 0 <= i < |prefix| ==> prefix[i] == ids[i];
      ForeignAdjustments(adjs, wls, prefix, w, l);
    }
  }

  /** Before anyone is settled the settled tables are the tables. */
  lemma NothingSettled(segs: seq<TimeSegment>, adjs: seq<Adjustment>, wls: seq<WorkLog>)
    ensures SettledSegments(segs, wls, map[]) == segs
    ensures SettledAdjustments(adjs, wls, map[]) == adjs
    ensures SettledWorklogs(segs, adjs, wls, map[]) == wls
  {
  }

  /** Settling worker `w`'s segment list under `rid` on top of the settled
      segment table settles `w` as well. */
  lemma StepSegments(segs: seq<TimeSegment>, wls: seq<WorkLog>, assign: map<nat, nat>, w: nat, rid: nat,
                     after: seq<TimeSegment>)
    requires w !in assign
    requires |after| == |segs|
    requires forall j :: 0 <= j < |segs| ==>
      after[j] == if j in WorkerSegments(segs, wls, w) then SettleSegment(SettledSegments(segs, wls, assign)[j], rid)
                  else SettledSegments(segs, wls, assign)[j]
    ensures after == SettledSegments(segs, wls, assign[w := rid])
  {
    var target := SettledSegments(segs, wls, assign[w := rid]);
    forall j | 0 <= j < |segs| ensures after[j] == target[j] {
      SegmentIdsExact(segs, wls, w, |segs|, j);
    }
  }

  lemma StepAdjustments(adjs: seq<Adjustment>, wls: seq<WorkLog>, assign: map<nat, nat>, w: nat, rid: nat,
                        after: seq<Adjustment>)
    requires w !in assign
    requires |after| == |adjs|
    requires forall j :: 0 <= j < |adjs| ==>
      after[j] == if j in WorkerAdjustments(adjs, wls, w) then SettleAdjustment(SettledAdjustments(adjs, wls, assign)[j], rid)
                  else SettledAdjustments(adjs, wls, assign)[j]
    ensures after == SettledAdjustments(adjs, wls, assign[w := rid])
  {
    var target := SettledAdjustments(adjs, wls, assign[w := rid]);
    forall j | 0 <= j < |adjs| ensures after[j] == target[j] {
      AdjustmentIdsExact(adjs, wls, w, |adjs|, j);
    }
  }

  /** Crediting worker `w`'s segments (with the link) and then its
      adjustments (without) on top of the settled worklog table settles `w`
      as well. */
  lemma StepWorklogs(segs: seq<TimeSegment>, adjs: seq<Adjustment>, wls: seq<WorkLog>, assign: map<nat, nat>,
                     w: nat, rid: nat, mid: seq<WorkLog>, after: seq<WorkLog>)
    requires w !in assign
    requires |mid| == |wls| && |after| == |wls|
    requires forall l :: 0 <= l < |wls| ==>
      mid[l] == Credited(SettledWorklogs(segs, adjs, wls, assign)[l],
                         SegmentsOn(segs, wls, WorkerSegments(segs, wls, w), l),
                         if l in SegmentWorklogs(segs, WorkerSegments(segs, wls, w)) then Some(rid)
                         else SettledWorklogs(segs, adjs, wls, assign)[l].remittanceId)
    requires forall l :: 0 <= l < |wls| ==>
      after[l] == Credited(mid[l], AdjustmentsOn(adjs, WorkerAdjustments(adjs, wls, w), l), mid[l].remittanceId)
    ensures after == SettledWorklogs(segs, adjs, wls, assign[w := rid])
  {
    var segIds := WorkerSegments(segs, wls, w);
    var adjIds := WorkerAdjustments(adjs, wls, w);
    WorkerSegmentsSelected(segs, wls, w);
    WorkerAdjustmentsSelected(adjs, wls, w);
    var before := SettledWorklogs(segs, adjs, wls, assign);
    var target := SettledWorklogs(segs, adjs, wls, assign[w := rid]);
    forall l | 0 <= l < |wls| ensures after[l] == target[l] {
      if wls[l].workerId == w {
        assert before[l] == wls[l];
      } else {
        ForeignSegments(segs, wls, segIds, w, l);
        ForeignAdjustments(adjs, wls, adjIds, w, l);
        assert mid[l] == before[l];
      }
    }
  }

  /** Reporting one more summary adds its worker to the reported workers
      (keeping them distinct when it is new), its row to the persisted ones,
      its amounts to the totals and its worker to the assignment. */
  lemma SummaryAppend(ss: seq<BatchSummary>, s: BatchSummary, now: int)
    ensures SummaryWorkers(ss + [s]) == SummaryWorkers(ss) + {s.workerId}
    ensures DistinctWorkers(ss + [s]) <==> DistinctWorkers(ss) && s.workerId !in SummaryWorkers(ss)
    ensures Records(ss + [s], now) == Records(ss, now) + [RecordOf(s, now)]
    ensures SumGross(ss + [s]) == SumGross(ss) + s.grossAmount
    ensures SumNet(ss + [s]) == SumNet(ss) + s.netAmount
    ensures AssignmentOf(ss + [s]) == AssignmentOf(ss)[s.workerId := s.id]
  {
    assert (ss + [s])[..|ss|] == ss;
  }

  /** The summaries after a visit that reported `o`, if anything. */
  function Appended(ss: seq<BatchSummary>, o: Option<BatchSummary>): seq<BatchSummary>
  {
    if o.Some? then ss + [o.value] else ss
  }

  /** What a run has reported once it has visited the workers in `done`:
      one summary per visited worker that is not passed over, each as
      expected, numbered from `id0` in reporting order. */
  ghost predicate Reported(segs: seq<TimeSegment>, adjs: seq<Adjustment>, wls: seq<WorkLog>, done: set<nat>,
                           ss: seq<BatchSummary>, id0: nat, status: RemittanceStatus, start: Date, end: Date)
  {
    && DistinctWorkers(ss)
    && (forall w :: w in SummaryWorkers(ss) <==> w in done && !Skipped(segs, adjs, wls, w))
    && AsExpected(segs, adjs, wls, ss, id0, status, start, end)
  }

  /** Visiting one more worker keeps the report as expected, and adds the
      new summary's amounts to the totals. */
  lemma ReportStep(segs: seq<TimeSegment>, adjs: seq<Adjustment>, wls: seq<WorkLog>, done: set<nat>,
                   ss: seq<BatchSummary>, id0: nat, status: RemittanceStatus, start: Date, end: Date,
                   w: nat, o: Option<BatchSummary>)
    requires Reported(segs, adjs, wls, done, ss, id0, status, start, end)
    requires w !in done
    requires o.None? <==> Skipped(segs, adjs, wls, w)
    requires o.Some? ==> o.value == ExpectedSummary(segs, adjs, wls, w, id0 + |ss|, status, start, end)
    ensures Reported(segs, adjs, wls, done + {w}, Appended(ss, o), id0, status, start, end)
    ensures SumGross(Appended(ss, o)) == SumGross(ss) + (if o.Some? then o.value.grossAmount else 0)
    ensures SumNet(Appended(ss, o)) == SumNet(ss) + (if o.Some? then o.value.netAmount else 0)
  {
    if o.Some? {
      var ss' := ss + [o.value];
      SummaryAppend(ss, o.value, 0);
      assert ss'[..|ss|] == ss;
      assert AsExpected(segs, adjs, wls, ss', id0, status, start, end);
      assert DistinctWorkers(ss');
    }
  }

  /** What a run has accounted for once it has visited the workers in
      `done`: each of them could be priced, the summaries reported so far
      are as expected and the totals add them up. */
  ghost predicate Accounted(segs: seq<TimeSegment>, adjs: seq<Adjustment>, wls: seq<WorkLog>, done: set<nat>,
                            ss: seq<BatchSummary>, totalGross: Cents, totalNet: Cents, id0: nat,
                            status: RemittanceStatus, start: Date, end: Date)
  {
    && (forall w :: w in done ==> IdsPriceable(segs, WorkerSegments(segs, wls, w)))
    && Reported(segs, adjs, wls, done, ss, id0, status, start, end)
    && totalGross == SumGross(ss) && totalNet == SumNet(ss)
  }

  /** A worker not yet visited has not been reported. */
  lemma Unvisited(segs: seq<TimeSegment>, adjs: seq<Adjustment>, wls: seq<WorkLog>, done: set<nat>,
                  ss: seq<BatchSummary>, totalGross: Cents, totalNet: Cents, id0: nat,
                  status: RemittanceStatus, start: Date, end: Date, w: nat)
    requires Accounted(segs, adjs, wls, done, ss, totalGross, totalNet, id0, status, start, end)
    requires w !in done
    ensures w !in SummaryWorkers(ss)
  {
  }

  /** Visiting one more worker, whose units could be priced and who
      reported `o`, keeps the account. */
  lemma Advance(segs: seq<TimeSegment>, adjs: seq<Adjustment>, wls: seq<WorkLog>, done: set<nat>,
                ss: seq<BatchSummary>, totalGross: Cents, totalNet: Cents, id0: nat,
                status: RemittanceStatus, start: Date, end: Date, w: nat, o: Option<BatchSummary>)
    requires Accounted(segs, adjs, wls, done, ss, totalGross, totalNet, id0, status, start, end)
    requires w !in done && IdsPriceable(segs, WorkerSegments(segs, wls, w))
    requires o.None? <==> Skipped(segs, adjs, wls, w)
    requires o.Some? ==> o.value == ExpectedSummary(segs, adjs, wls, w, id0 + |ss|, status, start, end)
    ensures Accounted(segs, adjs, wls, done + {w}, Appended(ss, o),
                      totalGross + (if o.Some? then o.value.grossAmount else 0),
                      totalNet + (if o.Some? then o.value.netAmount else 0), id0, status, start, end)
  {
    ReportStep(segs, adjs, wls, done, ss, id0, status, start, end, w, o);
  }
}
