/** The remittance batch: pick up every unpaid unit, group the units by
    worker, price each worker's units, and for every worker with something
    to pay create one remittance and, for a COMPLETED payout, settle the
    units under it. The clock (`today`, `now`) is a parameter; new
    remittance ids are positions in the remittance table. */
module Remittances {
  import opened Wrappers
  import opened Models
  import opened Errors
  import opened Pricing
  import opened Period
  import opened Database
  import opened Selection
  import opened Settlement
  import opened Credits

  /** A defaulting dictionary lookup: no entry reads as an empty list. */
  function Lookup(m: map<nat, seq<nat>>, w: nat): seq<nat>
  {
    if w in m then m[w] else []
  }

  /** The grouping of the segments below `n`: each picked-up segment filed
      under the worker owning its worklog, in table order. */
  ghost function GroupedSegments(segs: seq<TimeSegment>, wls: seq<WorkLog>, n: nat): map<nat, seq<nat>>
    requires n <= |segs|
  {
    if n == 0 then map[]
    else
      var m := GroupedSegments(segs, wls, n - 1);
      if SegmentSelected(segs, wls, n - 1)
      then m[wls[segs[n - 1].worklogId].workerId := Lookup(m, wls[segs[n - 1].worklogId].workerId) + [n - 1]]
      else m
  }

  ghost function GroupedAdjustments(adjs: seq<Adjustment>, wls: seq<WorkLog>, n: nat): map<nat, seq<nat>>
    requires n <= |adjs|
  {
    if n == 0 then map[]
    else
      var m := GroupedAdjustments(adjs, wls, n - 1);
      if AdjustmentSelected(adjs, wls, n - 1)
      then m[wls[adjs[n - 1].worklogId].workerId := Lookup(m, wls[adjs[n - 1].worklogId].workerId) + [n - 1]]
      else m
  }

  /** The grouping files every worker's picked-up segments under it, and
      nothing else. */
  lemma {:induction false} GroupedSegmentsExact(segs: seq<TimeSegment>, wls: seq<WorkLog>, n: nat, w: nat)
    requires n <= |segs|
    ensures Lookup(GroupedSegments(segs, wls, n), w) == SegmentIds(segs, wls, w, n)
  {
    if n > 0 {
      GroupedSegmentsExact(segs, wls, n - 1, w);
    }
  }

  lemma {:induction false} GroupedAdjustmentsExact(adjs: seq<Adjustment>, wls: seq<WorkLog>, n: nat, w: nat)
    requires n <= |adjs|
    ensures Lookup(GroupedAdjustments(adjs, wls, n), w) == AdjustmentIds(adjs, wls, w, n)
  {
    if n > 0 {
      GroupedAdjustmentsExact(adjs, wls, n - 1, w);
    }
  }

  /** Groups the picked-up segments by the worker owning their worklog;
      a segment on a missing worklog is passed over. */
  method GroupSegments(segs: seq<TimeSegment>, wls: seq<WorkLog>) returns (bySegs: map<nat, seq<nat>>)
    ensures forall w :: Lookup(bySegs, w) == WorkerSegments(segs, wls, w)
  {
    bySegs := map[];
    var j := 0;
    while j < |segs|
      invariant 0 <= j <= |segs|
      invariant bySegs == GroupedSegments(segs, wls, j)
    {
      var seg := segs[j];
      if seg.status == Active && seg.settlementStatus == Unremitted {
        if seg.worklogId < |wls| {
          var w := wls[seg.worklogId].workerId;
          bySegs := bySegs[w := Lookup(bySegs, w) + [j]];
        }
      }
      j := j + 1;
    }
    forall w ensures Lookup(bySegs, w) == WorkerSegments(segs, wls, w) {
      GroupedSegmentsExact(segs, wls, j, w);
    }
  }

  /** Groups the picked-up adjustments by the worker owning their worklog;
      an adjustment on a missing worklog is passed over. */
  method GroupAdjustments(adjs: seq<Adjustment>, wls: seq<WorkLog>) returns (byAdjs: map<nat, seq<nat>>)
    ensures forall w :: Lookup(byAdjs, w) == WorkerAdjustments(adjs, wls, w)
  {
    byAdjs := map[];
    var j := 0;
    while j < |adjs|
      invariant 0 <= j <= |adjs|
      invariant byAdjs == GroupedAdjustments(adjs, wls, j)
    {
      var adj := adjs[j];
      if adj.settlementStatus == Unremitted {
        if adj.worklogId < |wls| {
          var w := wls[adj.worklogId].workerId;
          byAdjs := byAdjs[w := Lookup(byAdjs, w) + [j]];
        }
      }
      j := j + 1;
    }
    forall w ensures Lookup(byAdjs, w) == WorkerAdjustments(adjs, wls, w) {
      GroupedAdjustmentsExact(adjs, wls, j, w);
    }
  }

  /** What one worker is owed: gross and net, and the worklogs touched. */
  datatype Tally = Tally(gross: Cents, net: Cents, worklogIds: set<nat>)

  /** Prices a worker's units: net adds every price and amount, gross only
      the positive ones. Fails on the first ACTIVE segment that ends before
      it starts. */
  method TallyWorker(segs: seq<TimeSegment>, adjs: seq<Adjustment>, wls: seq<WorkLog>,
                     segIds: seq<nat>, adjIds: seq<nat>) returns (r: Result<Tally, Error>)
    requires forall i :: 0 <= i < |segIds| ==> segIds[i] < |segs| && segs[segIds[i]].worklogId < |wls|
    requires forall i :: 0 <= i < |adjIds| ==> adjIds[i] < |adjs|
    ensures r.Failure? <==> !IdsPriceable(segs, segIds)
    ensures r.Failure? ==> r.error == NegativeDuration
    ensures r.Success? ==> r.value.net == SegmentsNet(segs, wls, segIds) + AdjustmentsNet(adjs, adjIds)
    ensures r.Success? ==> r.value.gross == SegmentsGross(segs, wls, segIds) + AdjustmentsGross(adjs, adjIds)
    ensures r.Success? ==> r.value.worklogIds == SegmentWorklogs(segs, segIds) + AdjustmentWorklogs(adjs, adjIds)
  {
    var gross, net := 0, 0;
    var worklogIds: set<nat> := {};
    var i := 0;
    while i < |segIds|
      invariant 0 <= i <= |segIds|
      invariant IdsPriceable(segs, segIds[..i])
      invariant net == SegmentsNet(segs, wls, segIds[..i])
      invariant gross == SegmentsGross(segs, wls, segIds[..i])
      invariant worklogIds == SegmentWorklogs(segs, segIds[..i])
    {
      assert segIds[..i + 1][..i] == segIds[..i];
      var seg := segs[segIds[i]];
      var amount := Price(seg, wls[seg.worklogId].hourlyRate);
      if amount.Failure? {
        assert !IdsPriceable(segs, segIds) by {
          assert segIds[i] < |segs| && seg.status == Active && seg.endTime < seg.startTime;
        }
        return Failure(amount.error);
      }
      net := net + amount.value;
      if amount.value > 0 {
        gross := gross + amount.value;
      }
      worklogIds := worklogIds + {seg.worklogId};
      i := i + 1;
    }
    assert segIds[..i] == segIds;
    var segNet, segGross := net, gross;
    var k := 0;
    while k < |adjIds|
      invariant 0 <= k <= |adjIds|
      invariant net == segNet + AdjustmentsNet(adjs, adjIds[..k])
      invariant gross == segGross + AdjustmentsGross(adjs, adjIds[..k])
      invariant worklogIds == SegmentWorklogs(segs, segIds) + AdjustmentWorklogs(adjs, adjIds[..k])
    {
      assert adjIds[..k + 1][..k] == adjIds[..k];
      var adj := adjs[adjIds[k]];
      net := net + adj.amount;
      if adj.amount > 0 {
        gross := gross + adj.amount;
      }
      worklogIds := worklogIds + {adj.worklogId};
      k := k + 1;
    }
    assert adjIds[..k] == adjIds;
    return Success(Tally(gross, net, worklogIds));
  }

  /** The segment table `segs` once the listed segments are settled under
      `rid`, one after the other. */
  ghost function SegmentsSettledBy(segs: seq<TimeSegment>, ids: seq<nat>, rid: nat): seq<TimeSegment>
  {
    if ids == [] then segs
    else
      var t := SegmentsSettledBy(segs, ids[..|ids| - 1], rid);
      var j := ids[|ids| - 1];
      if j < |t| then t[j := SettleSegment(t[j], rid)] else t
  }

  /** The worklog table `wls` once it is credited with the listed segments
      of `segs0`, one after the other, each linking its worklog to `rid`. */
  ghost function CreditedBySegments(wls: seq<WorkLog>, segs0: seq<TimeSegment>, wls0: seq<WorkLog>, ids: seq<nat>, rid: nat)
    : seq<WorkLog>
  {
    if ids == [] then wls
    else
      var t := CreditedBySegments(wls, segs0, wls0, ids[..|ids| - 1], rid);
      var j := ids[|ids| - 1];
      if j < |segs0| && segs0[j].worklogId < |t| then
        var l := segs0[j].worklogId;
        t[l := Credited(t[l], UnitPrice(segs0, wls0, j), Some(rid))]
      else t
  }

  lemma {:induction false} SegmentsSettledByExact(segs: seq<TimeSegment>, ids: seq<nat>, rid: nat)
    ensures |SegmentsSettledBy(segs, ids, rid)| == |segs|
    ensures forall j :: 0 <= j < |segs| ==>
      SegmentsSettledBy(segs, ids, rid)[j] == if j in ids then SettleSegment(segs[j], rid) else segs[j]
  {
    if ids != [] {
      var prefix := ids[..|ids| - 1];
      SegmentsSettledByExact(segs, prefix, rid);
      assert ids == prefix + [ids[|ids| - 1]];
    }
  }

  lemma {:induction false} CreditedBySegmentsExact(wls: seq<WorkLog>, segs0: seq<TimeSegment>, wls0: seq<WorkLog>,
                                                   ids: seq<nat>, rid: nat)
    ensures |CreditedBySegments(wls, segs0, wls0, ids, rid)| == |wls|
    ensures forall l :: 0 <= l < |wls| ==>
      CreditedBySegments(wls, segs0, wls0, ids, rid)[l]
      == Credited(wls[l], SegmentsOn(segs0, wls0, ids, l),
                  if l in SegmentWorklogs(segs0, ids) then Some(rid) else wls[l].remittanceId)
  {
    if ids != [] {
      CreditedBySegmentsExact(wls, segs0, wls0, ids[..|ids| - 1], rid);
    }
  }

  /** Settles the listed segments under remittance `rid`: each becomes
      REMITTED and linked to `rid`, and its worklog is credited with its
      price and linked to `rid`. Prices are read from the tables as they
      were before the run. */
  method SettleSegments(db: Store, segs0: seq<TimeSegment>, wls0: seq<WorkLog>, segIds: seq<nat>, rid: nat)
    requires |db.segments| == |segs0| && |db.worklogs| == |wls0|
    requires forall i :: 0 <= i < |segIds| ==> segIds[i] < |segs0| && segs0[segIds[i]].worklogId < |wls0|
    requires IdsPriceable(segs0, segIds)
    modifies db
    ensures db.remittances == old(db.remittances) && db.adjustments == old(db.adjustments)
    ensures |db.segments| == |segs0| && |db.worklogs| == |wls0|
    ensures forall j :: 0 <= j < |segs0| ==>
      db.segments[j] == if j in segIds then SettleSegment(old(db.segments[j]), rid) else old(db.segments[j])
    ensures forall l :: 0 <= l < |wls0| ==>
      db.worklogs[l] == Credited(old(db.worklogs[l]), SegmentsOn(segs0, wls0, segIds, l),
                                 if l in SegmentWorklogs(segs0, segIds) then Some(rid) else old(db.worklogs[l].remittanceId))
  {
    ghost var segs, wls := db.segments, db.worklogs;
    var i := 0;
    while i < |segIds|
      invariant 0 <= i <= |segIds|
      invariant db.remittances == old(db.remittances) && db.adjustments == old(db.adjustments)
      invariant |db.segments| == |segs0| && |db.worklogs| == |wls0|
      invariant db.segments == SegmentsSettledBy(segs, segIds[..i], rid)
      invariant db.worklogs == CreditedBySegments(wls, segs0, wls0, segIds[..i], rid)
    {
      assert segIds[..i + 1][..i] == segIds[..i];
      var j := segIds[i];
      db.segments := db.segments[j := SettleSegment(db.segments[j], rid)];
      var l := segs0[j].worklogId;
      var amount := Price(segs0[j], wls0[l].hourlyRate);
      db.worklogs := db.worklogs[l := Credited(db.worklogs[l], amount.value, Some(rid))];
      i := i + 1;
    }
    assert segIds[..i] == segIds;
    SegmentsSettledByExact(segs, segIds, rid);
    CreditedBySegmentsExact(wls, segs0, wls0, segIds, rid);
  }

  /** The adjustment table `adjs` once the listed adjustments are settled
      under `rid`, one after the other. */
  ghost function AdjustmentsSettledBy(adjs: seq<Adjustment>, ids: seq<nat>, rid: nat): seq<Adjustment>
  {
    if ids == [] then adjs
    else
      var t := AdjustmentsSettledBy(adjs, ids[..|ids| - 1], rid);
      var j := ids[|ids| - 1];
      if j < |t| then t[j := SettleAdjustment(t[j], rid)] else t
  }

  /** The worklog table `wls` once it is credited with the listed
      adjustments of `adjs0`, one after the other, links left alone. */
  ghost function CreditedByAdjustments(wls: seq<WorkLog>, adjs0: seq<Adjustment>, ids: seq<nat>): seq<WorkLog>
  {
    if ids == [] then wls
    else
      var t := CreditedByAdjustments(wls, adjs0, ids[..|ids| - 1]);
      var j := ids[|ids| - 1];
      if j < |adjs0| && adjs0[j].worklogId < |t| then
        var l := adjs0[j].worklogId;
        t[l := Credited(t[l], adjs0[j].amount, t[l].remittanceId)]
      else t
  }

  lemma {:induction false} AdjustmentsSettledByExact(adjs: seq<Adjustment>, ids: seq<nat>, rid: nat)
    ensures |AdjustmentsSettledBy(adjs, ids, rid)| == |adjs|
    ensures forall j :: 0 <= j < |adjs| ==>
      AdjustmentsSettledBy(adjs, ids, rid)[j] == if j in ids then SettleAdjustment(adjs[j], rid) else adjs[j]
  {
    if ids != [] {
      var prefix := ids[..|ids| - 1];
      AdjustmentsSettledByExact(adjs, prefix, rid);
      assert ids == prefix + [ids[|ids| - 1]];
    }
  }

  lemma {:induction false} CreditedByAdjustmentsExact(wls: seq<WorkLog>, adjs0: seq<Adjustment>, ids: seq<nat>)
    ensures |CreditedByAdjustments(wls, adjs0, ids)| == |wls|
    ensures forall l :: 0 <= l < |wls| ==>
      CreditedByAdjustments(wls, adjs0, ids)[l] == Credited(wls[l], AdjustmentsOn(adjs0, ids, l), wls[l].remittanceId)
  {
    if ids != [] {
      CreditedByAdjustmentsExact(wls, adjs0, ids[..|ids| - 1]);
    }
  }

  /** Settles the listed adjustments under remittance `rid`: each becomes
      REMITTED and linked to `rid`, and its worklog is credited with its
      amount; the worklog's own link is left alone. */
  method SettleAdjustments(db: Store, adjs0: seq<Adjustment>, wls0: seq<WorkLog>, adjIds: seq<nat>, rid: nat)
    requires |db.adjustments| == |adjs0| && |db.worklogs| == |wls0|
    requires forall i :: 0 <= i < |adjIds| ==> adjIds[i] < |adjs0| && adjs0[adjIds[i]].worklogId < |wls0|
    modifies db
    ensures db.remittances == old(db.remittances) && db.segments == old(db.segments)
    ensures |db.adjustments| == |adjs0| && |db.worklogs| == |wls0|
    ensures forall j :: 0 <= j < |adjs0| ==>
      db.adjustments[j] == if j in adjIds then SettleAdjustment(old(db.adjustments[j]), rid) else old(db.adjustments[j])
    ensures forall l :: 0 <= l < |wls0| ==>
      db.worklogs[l] == Credited(old(db.worklogs[l]), AdjustmentsOn(adjs0, adjIds, l), old(db.worklogs[l].remittanceId))
  {
    ghost var adjs, wls := db.adjustments, db.worklogs;
    var i := 0;
    while i < |adjIds|
      invariant 0 <= i <= |adjIds|
      invariant db.remittances == old(db.remittances) && db.segments == old(db.segments)
      invariant |db.adjustments| == |adjs0| && |db.worklogs| == |wls0|
      invariant db.adjustments == AdjustmentsSettledBy(adjs, adjIds[..i], rid)
      invariant db.worklogs == CreditedByAdjustments(wls, adjs0, adjIds[..i])
    {
      assert adjIds[..i + 1][..i] == adjIds[..i];
      var j := adjIds[i];
      db.adjustments := db.adjustments[j := SettleAdjustment(db.adjustments[j], rid)];
      var l := adjs0[j].worklogId;
      db.worklogs := db.worklogs[l := Credited(db.worklogs[l], adjs0[j].amount, db.worklogs[l].remittanceId)];
      i := i + 1;
    }
    assert adjIds[..i] == adjIds;
    AdjustmentsSettledByExact(adjs, adjIds, rid);
    CreditedByAdjustmentsExact(wls, adjs0, adjIds);
  }

  /** What the tables hold during a run, once the workers reported in
      `ss` are paid: outside a dry run one new row per summary, and for a
      COMPLETED payout those workers' units settled. */
  ghost predicate TablesAt(db: Store, segs0: seq<TimeSegment>, adjs0: seq<Adjustment>, wls0: seq<WorkLog>,
                           rems0: seq<Remittance>, ss: seq<BatchSummary>, dryRun: bool, status: RemittanceStatus, now: int)
    reads db
  {
    && db.remittances == (if dryRun then rems0 else rems0 + Records(ss, now))
    && (if !dryRun && status == Completed then
          && db.segments == SettledSegments(segs0, wls0, AssignmentOf(ss))
          && db.adjustments == SettledAdjustments(adjs0, wls0, AssignmentOf(ss))
          && db.worklogs == SettledWorklogs(segs0, adjs0, wls0, AssignmentOf(ss))
        else db.segments == segs0 && db.adjustments == adjs0 && db.worklogs == wls0)
  }

  /** Pays summary `s`, the next one reported after `ss`: persists its
      remittance as the next row and, for a COMPLETED payout, settles worker
      `s.workerId`'s units under it. */
  method PayWorker(db: Store, segs0: seq<TimeSegment>, adjs0: seq<Adjustment>, wls0: seq<WorkLog>,
                   rems0: seq<Remittance>, ss: seq<BatchSummary>, s: BatchSummary, now: int)
    requires TablesAt(db, segs0, adjs0, wls0, rems0, ss, false, s.status, now)
    requires s.id == |rems0| + |ss| && s.workerId !in SummaryWorkers(ss)
    requires IdsPriceable(segs0, WorkerSegments(segs0, wls0, s.workerId))
    modifies db
    ensures TablesAt(db, segs0, adjs0, wls0, rems0, ss + [s], false, s.status, now)
  {
    SummaryAppend(ss, s, now);
    ghost var assign := AssignmentOf(ss);
    AssignmentOfSummaries(ss);
    db.remittances := db.remittances + [RecordOf(s, now)];
    assert db.remittances == rems0 + Records(ss + [s], now) by {
      assert rems0 + Records(ss, now) + [RecordOf(s, now)] == rems0 + (Records(ss, now) + [RecordOf(s, now)]);
    }
    if s.status == Completed {
      var w := s.workerId;
      var segIds := WorkerSegments(segs0, wls0, w);
      var adjIds := WorkerAdjustments(adjs0, wls0, w);
      WorkerSegmentsSelected(segs0, wls0, w);
      WorkerAdjustmentsSelected(adjs0, wls0, w);
      SettleSegments(db, segs0, wls0, segIds, s.id);
      ghost var mid := db.worklogs;
      SettleAdjustments(db, adjs0, wls0, adjIds, s.id);
      StepSegments(segs0, wls0, assign, w, s.id, db.segments);
      StepAdjustments(adjs0, wls0, assign, w, s.id, db.adjustments);
      StepWorklogs(segs0, adjs0, wls0, assign, w, s.id, mid, db.worklogs);
    }
  }

  /** Prices worker `w`'s units and reports the summary it would get under
      id `id`, or nothing when gross and net are both 0. Fails on a segment
      that ends before it starts. */
  method ReportWorker(segs0: seq<TimeSegment>, adjs0: seq<Adjustment>, wls0: seq<WorkLog>, w: nat,
                      segIds: seq<nat>, adjIds: seq<nat>, id: nat, status: RemittanceStatus, start: Date, end: Date)
    returns (r: Result<Option<BatchSummary>, Error>)
    requires segIds == WorkerSegments(segs0, wls0, w) && adjIds == WorkerAdjustments(adjs0, wls0, w)
    ensures r.Failure? <==> !IdsPriceable(segs0, segIds)
    ensures r.Failure? ==> r.error == NegativeDuration
    ensures r.Success? ==> (r.value.None? <==> Skipped(segs0, adjs0, wls0, w))
    ensures r.Success? && r.value.Some? ==> r.value.value == ExpectedSummary(segs0, adjs0, wls0, w, id, status, start, end)
  {
    WorkerSegmentsSelected(segs0, wls0, w);
    WorkerAdjustmentsSelected(adjs0, wls0, w);
    var tally := TallyWorker(segs0, adjs0, wls0, segIds, adjIds);
    if tally.Failure? {
      return Failure(tally.error);
    }
    var gross, net := tally.value.gross, tally.value.net;
    if gross == 0 && net == 0 {
      return Success(None);
    }
    return Success(Some(BatchSummary(id, w, gross, net, status, |tally.value.worklogIds|, start, end)));
  }

  /** A dry run leaves the tables as they were, whatever it reports. */
  lemma DryRunTables(db: Store, segs0: seq<TimeSegment>, adjs0: seq<Adjustment>, wls0: seq<WorkLog>,
                     rems0: seq<Remittance>, ss: seq<BatchSummary>, ss': seq<BatchSummary>, status: RemittanceStatus, now: int)
    requires TablesAt(db, segs0, adjs0, wls0, rems0, ss, true, status, now)
    ensures TablesAt(db, segs0, adjs0, wls0, rems0, ss', true, status, now)
  {
  }

  /** Visits worker `w` during a run: reports its summary, if any, and
      outside a dry run pays it with PayWorker. Fails, having changed
      nothing, on a segment that ends before it starts. */
  method VisitWorker(db: Store, segs0: seq<TimeSegment>, adjs0: seq<Adjustment>, wls0: seq<WorkLog>,
                     rems0: seq<Remittance>, ss: seq<BatchSummary>, w: nat, segIds: seq<nat>, adjIds: seq<nat>,
                     status: RemittanceStatus, start: Date, end: Date, dryRun: bool, now: int)
    returns (r: Result<Option<BatchSummary>, Error>)
    requires segIds == WorkerSegments(segs0, wls0, w) && adjIds == WorkerAdjustments(adjs0, wls0, w)
    requires w !in SummaryWorkers(ss)
    requires TablesAt(db, segs0, adjs0, wls0, rems0, ss, dryRun, status, now)
    modifies db
    ensures r.Failure? <==> !IdsPriceable(segs0, segIds)
    ensures r.Failure? ==> r.error == NegativeDuration
    ensures r.Success? ==> (r.value.None? <==> Skipped(segs0, adjs0, wls0, w))
    ensures r.Success? && r.value.Some? ==>
      r.value.value == ExpectedSummary(segs0, adjs0, wls0, w, |rems0| + |ss|, status, start, end)
    ensures r.Success? ==> TablesAt(db, segs0, adjs0, wls0, rems0, Appended(ss, r.value), dryRun, status, now)
  {
    r := ReportWorker(segs0, adjs0, wls0, w, segIds, adjIds, |rems0| + |ss|, status, start, end);
    if r.Failure? || r.value.None? {
      return;
    }
    var s := r.value.value;
    if dryRun {
      DryRunTables(db, segs0, adjs0, wls0, rems0, ss, ss + [s], status, now);
    } else {
      PayWorker(db, segs0, adjs0, wls0, rems0, ss, s, now);
    }
  }

  /** A run starts from the tables as they are, with nothing visited,
      nothing reported and both totals 0. */
  lemma Started(db: Store, segs0: seq<TimeSegment>, adjs0: seq<Adjustment>, wls0: seq<WorkLog>, rems0: seq<Remittance>,
                status: RemittanceStatus, start: Date, end: Date, dryRun: bool, now: int)
    requires db.segments == segs0 && db.adjustments == adjs0 && db.worklogs == wls0 && db.remittances == rems0
    ensures Accounted(segs0, adjs0, wls0, {}, [], 0, 0, |rems0|, status, start, end)
    ensures TablesAt(db, segs0, adjs0, wls0, rems0, [], dryRun, status, now)
  {
    NothingSettled(segs0, adjs0, wls0);
  }

  /** One turn of the run's loop: visits worker `w` and adds what it
      reports to the summaries and the totals. */
  method VisitNext(db: Store, segs0: seq<TimeSegment>, adjs0: seq<Adjustment>, wls0: seq<WorkLog>, rems0: seq<Remittance>,
                   ghost done: set<nat>, ss: seq<BatchSummary>, totalGross: Cents, totalNet: Cents,
                   w: nat, segIds: seq<nat>, adjIds: seq<nat>,
                   status: RemittanceStatus, start: Date, end: Date, dryRun: bool, now: int)
    returns (r: Result<seq<BatchSummary>, Error>, gross: Cents, net: Cents)
    requires segIds == WorkerSegments(segs0, wls0, w) && adjIds == WorkerAdjustments(adjs0, wls0, w)
    requires w !in done
    requires Accounted(segs0, adjs0, wls0, done, ss, totalGross, totalNet, |rems0|, status, start, end)
    requires TablesAt(db, segs0, adjs0, wls0, rems0, ss, dryRun, status, now)
    modifies db
    ensures r.Failure? <==> !IdsPriceable(segs0, segIds)
    ensures r.Failure? ==> r.error == NegativeDuration
    ensures r.Success? ==> Accounted(segs0, adjs0, wls0, done + {w}, r.value, gross, net, |rems0|, status, start, end)
    ensures r.Success? ==> TablesAt(db, segs0, adjs0, wls0, rems0, r.value, dryRun, status, now)
  {
    Unvisited(segs0, adjs0, wls0, done, ss, totalGross, totalNet, |rems0|, status, start, end, w);
    var visit := VisitWorker(db, segs0, adjs0, wls0, rems0, ss, w, segIds, adjIds, status, start, end, dryRun, now);
    if visit.Failure? {
      return Failure(visit.error), totalGross, totalNet;
    }
    Advance(segs0, adjs0, wls0, done, ss, totalGross, totalNet, |rems0|, status, start, end, w, visit.value);
    gross, net := totalGross, totalNet;
    if visit.value.Some? {
      gross, net := gross + visit.value.value.grossAmount, net + visit.value.value.netAmount;
    }
    return Success(Appended(ss, visit.value)), gross, net;
  }

  /** Visits every worker of `workers` in some order, reporting summary ids
      from `|rems0|` on. Stops at the first worker whose units cannot be
      priced, leaving the tables as that worker's visit found them. */
  method VisitAll(db: Store, segs0: seq<TimeSegment>, adjs0: seq<Adjustment>, wls0: seq<WorkLog>, rems0: seq<Remittance>,
                  bySegs: map<nat, seq<nat>>, byAdjs: map<nat, seq<nat>>, workers: set<nat>,
                  status: RemittanceStatus, start: Date, end: Date, dryRun: bool, now: int)
    returns (r: Result<seq<BatchSummary>, Error>, totalGross: Cents, totalNet: Cents)
    requires forall w :: Lookup(bySegs, w) == WorkerSegments(segs0, wls0, w)
    requires forall w :: Lookup(byAdjs, w) == WorkerAdjustments(adjs0, wls0, w)
    requires Accounted(segs0, adjs0, wls0, {}, [], 0, 0, |rems0|, status, start, end)
    requires TablesAt(db, segs0, adjs0, wls0, rems0, [], dryRun, status, now)
    modifies db
    ensures r.Failure? <==> exists w :: w in workers && !IdsPriceable(segs0, WorkerSegments(segs0, wls0, w))
    ensures r.Failure? ==> r.error == NegativeDuration
    ensures r.Success? ==> Accounted(segs0, adjs0, wls0, workers, r.value, totalGross, totalNet, |rems0|, status, start, end)
    ensures r.Success? ==> TablesAt(db, segs0, adjs0, wls0, rems0, r.value, dryRun, status, now)
  {
    var summaries: seq<BatchSummary> := [];
    totalGross, totalNet := 0, 0;
    var remaining := workers;
    ghost var done: set<nat> := {};
    while remaining != {}
      invariant remaining <= workers && done == workers - remaining
      invariant Accounted(segs0, adjs0, wls0, done, summaries, totalGross, totalNet, |rems0|, status, start, end)
      invariant TablesAt(db, segs0, adjs0, wls0, rems0, summaries, dryRun, status, now)
      decreases |remaining|
    {
      var w :| w in remaining;
      var next, gross, net := VisitNext(db, segs0, adjs0, wls0, rems0, done, summaries, totalGross, totalNet,
                                        w, Lookup(bySegs, w), Lookup(byAdjs, w), status, start, end, dryRun, now);
      if next.Failure? {
        return Failure(next.error), totalGross, totalNet;
      }
      summaries, totalGross, totalNet := next.value, gross, net;
      remaining := remaining - {w};
      done := done + {w};
    }
    return Success(summaries), totalGross, totalNet;
  }

  /** The body of a run, from the tables as they are: groups the picked-up
      units by worker and visits every worker. Leaves the tables as the
      failing visit found them when a segment cannot be priced. */
  method RunBatch(db: Store, segs0: seq<TimeSegment>, adjs0: seq<Adjustment>, wls0: seq<WorkLog>, rems0: seq<Remittance>,
                  status: RemittanceStatus, start: Date, end: Date, dryRun: bool, now: int)
    returns (r: Result<seq<BatchSummary>, Error>, totalGross: Cents, totalNet: Cents)
    requires db.segments == segs0 && db.adjustments == adjs0 && db.worklogs == wls0 && db.remittances == rems0
    modifies db
    ensures r.Failure? <==> !AllSelectedPriceable(segs0, wls0)
    ensures r.Failure? ==> r.error == NegativeDuration
    ensures r.Success? ==> totalGross == SumGross(r.value) && totalNet == SumNet(r.value)
    ensures r.Success? ==> DistinctWorkers(r.value) && SummaryWorkers(r.value) == PaidWorkers(segs0, adjs0, wls0)
    ensures r.Success? ==> AsExpected(segs0, adjs0, wls0, r.value, |rems0|, status, start, end)
    ensures r.Success? ==> TablesAt(db, segs0, adjs0, wls0, rems0, r.value, dryRun, status, now)
  {
    var bySegs := GroupSegments(segs0, wls0);
    var byAdjs := GroupAdjustments(adjs0, wls0);
    var workers := bySegs.Keys + byAdjs.Keys;
    Started(db, segs0, adjs0, wls0, rems0, status, start, end, dryRun, now);
    r, totalGross, totalNet := VisitAll(db, segs0, adjs0, wls0, rems0, bySegs, byAdjs, workers,
                                        status, start, end, dryRun, now);
    PriceableByWorker(segs0, wls0);
    if r.Success? {
      PaidWorkersExactly(segs0, adjs0, wls0, workers);
    }
  }

  /** The remittance a run assigns to a worker is one of the rows it adds. */
  lemma {:induction false} AssignmentBelow(ss: seq<BatchSummary>, base: nat)
    requires forall k :: 0 <= k < |ss| ==> ss[k].id == base + k
    ensures forall w :: w in AssignmentOf(ss) ==> AssignmentOf(ss)[w] < base + |ss|
  {
    if ss != [] {
      AssignmentBelow(ss[..|ss| - 1], base);
    }
  }

  /** Settling under the rows a run adds keeps every remittance link
      pointing at a persisted remittance. */
  lemma SettlingKeepsLinks(segs: seq<TimeSegment>, adjs: seq<Adjustment>, wls: seq<WorkLog>, ss: seq<BatchSummary>, base: nat)
    requires LinksIn(segs, adjs, wls, base)
    requires forall k :: 0 <= k < |ss| ==> ss[k].id == base + k
    ensures var assign := AssignmentOf(ss);
            LinksIn(SettledSegments(segs, wls, assign), SettledAdjustments(adjs, wls, assign),
                    SettledWorklogs(segs, adjs, wls, assign), base + |ss|)
  {
    AssignmentBelow(ss, base);
  }

  /** The tables a run leaves keep the remittance links valid. */
  lemma RunKeepsLinks(db: Store, segs0: seq<TimeSegment>, adjs0: seq<Adjustment>, wls0: seq<WorkLog>,
                      rems0: seq<Remittance>, ss: seq<BatchSummary>, dryRun: bool, status: RemittanceStatus, now: int)
    requires LinksIn(segs0, adjs0, wls0, |rems0|)
    requires forall k :: 0 <= k < |ss| ==> ss[k].id == |rems0| + k
    requires TablesAt(db, segs0, adjs0, wls0, rems0, ss, dryRun, status, now)
    ensures db.Valid()
  {
    if !dryRun && status == Completed {
      SettlingKeepsLinks(segs0, adjs0, wls0, ss, |rems0|);
    }
  }

  /** The tables a run leaves keep every worklog's running total equal to
      what its ledger shows as paid. */
  lemma RunKeepsPaidExact(db: Store, segs0: seq<TimeSegment>, adjs0: seq<Adjustment>, wls0: seq<WorkLog>,
                          rems0: seq<Remittance>, ss: seq<BatchSummary>, dryRun: bool, status: RemittanceStatus, now: int)
    requires PaidMatchesLedger(segs0, adjs0, wls0)
    requires TablesAt(db, segs0, adjs0, wls0, rems0, ss, dryRun, status, now)
    ensures PaidMatchesLedger(db.segments, db.adjustments, db.worklogs)
  {
    if !dryRun && status == Completed {
      SettlingKeepsPaidExact(segs0, adjs0, wls0, AssignmentOf(ss));
    }
  }

  /** The remittance batch. Resolves the period, picks up every unpaid unit
      on an existing worklog, and visits the workers owning them in some
      order: a worker whose gross and net are both 0 is passed over, every
      other gets a remittance with the requested payout status (COMPLETED by
      default), and a COMPLETED payout settles the worker's units. A dry run
      reports the same remittances and changes nothing. A segment that ends
      before it starts aborts the run and rolls every change back. */
  method GenerateRemittances(db: Store, periodStart: Option<Date>, periodEnd: Option<Date>, dryRun: bool,
                             payoutStatus: Option<RemittanceStatus>, today: Date, now: int)
    returns (r: Result<BatchResult, Error>)
    requires ValidDate(today)
    requires db.Valid()
    modifies db
    ensures db.Valid()
    ensures old(PaidMatchesLedger(db.segments, db.adjustments, db.worklogs)) ==>
      PaidMatchesLedger(db.segments, db.adjustments, db.worklogs)
    ensures r.Failure? <==> ResolvePeriod(periodStart, periodEnd, today).Failure?
                            || !AllSelectedPriceable(old(db.segments), old(db.worklogs))
    ensures r.Failure? ==> r.error == if ResolvePeriod(periodStart, periodEnd, today).Failure?
                                      then PeriodEndBeforeStart else NegativeDuration
    ensures r.Failure? || dryRun ==>
      db.segments == old(db.segments) && db.adjustments == old(db.adjustments)
      && db.worklogs == old(db.worklogs) && db.remittances == old(db.remittances)
    ensures r.Success? ==>
      ResolvePeriod(periodStart, periodEnd, today) == Success((r.value.periodStart, r.value.periodEnd))
      && r.value.dryRun == dryRun
      && r.value.remittancesCreated == |r.value.remittances|
      && r.value.totalGrossAmount == SumGross(r.value.remittances)
      && r.value.totalNetAmount == SumNet(r.value.remittances)
    ensures r.Success? ==>
      DistinctWorkers(r.value.remittances)
      && SummaryWorkers(r.value.remittances) == PaidWorkers(old(db.segments), old(db.adjustments), old(db.worklogs))
    ensures r.Success? ==> forall k :: 0 <= k < |r.value.remittances| ==>
      r.value.remittances[k]
      == ExpectedSummary(old(db.segments), old(db.adjustments), old(db.worklogs), r.value.remittances[k].workerId,
                         |old(db.remittances)| + k, ChosenStatus(payoutStatus), r.value.periodStart, r.value.periodEnd)
    ensures r.Success? && !dryRun ==> db.remittances == old(db.remittances) + Records(r.value.remittances, now)
    ensures r.Success? && !dryRun && ChosenStatus(payoutStatus) == Completed ==>
      var assign := AssignmentOf(r.value.remittances);
      && db.segments == SettledSegments(old(db.segments), old(db.worklogs), assign)
      && db.adjustments == SettledAdjustments(old(db.adjustments), old(db.worklogs), assign)
      && db.worklogs == SettledWorklogs(old(db.segments), old(db.adjustments), old(db.worklogs), assign)
    ensures r.Success? && ChosenStatus(payoutStatus) != Completed ==>
      db.segments == old(db.segments) && db.adjustments == old(db.adjustments) && db.worklogs == old(db.worklogs)
  {
    var period := ResolvePeriod(periodStart, periodEnd, today);
    if period.Failure? {
      return Failure(period.error);
    }
    var start, end := period.value.0, period.value.1;
    var segs0, adjs0, wls0, rems0 := db.segments, db.adjustments, db.worklogs, db.remittances;
    var status := ChosenStatus(payoutStatus);
    var run, totalGross, totalNet := RunBatch(db, segs0, adjs0, wls0, rems0, status, start, end, dryRun, now);
    if run.Failure? {
      db.segments, db.adjustments, db.worklogs, db.remittances := segs0, adjs0, wls0, rems0;
      return Failure(run.error);
    }
    AsExpectedPointwise(segs0, adjs0, wls0, run.value, |rems0|, status, start, end);
    RunKeepsLinks(db, segs0, adjs0, wls0, rems0, run.value, dryRun, status, now);
    if PaidMatchesLedger(segs0, adjs0, wls0) {
      RunKeepsPaidExact(db, segs0, adjs0, wls0, rems0, run.value, dryRun, status, now);
    }
    return Success(BatchResult(|run.value|, totalGross, totalNet, run.value, dryRun, start, end));
  }
}
