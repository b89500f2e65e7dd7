/** What a remittance run picks up, how it prices one worker's units, and
    what the tables hold once workers are settled: the specification the
    batch in module Remittances is proved against.

    A unit is referred to by its id, its position in the segment or the
    adjustment table; a worker's units are listed in table order. */
module Selection {
  import opened Wrappers
  import opened Models
  import opened Pricing

  /** A segment the run picks up: ACTIVE, UNREMITTED, on an existing worklog. */
  predicate SegmentSelected(segs: seq<TimeSegment>, wls: seq<WorkLog>, j: nat)
  {
    j < |segs| && segs[j].status == Active && segs[j].settlementStatus == Unremitted
    && segs[j].worklogId < |wls|
  }

  /** An adjustment the run picks up: UNREMITTED, on an existing worklog. */
  predicate AdjustmentSelected(adjs: seq<Adjustment>, wls: seq<WorkLog>, j: nat)
  {
    j < |adjs| && adjs[j].settlementStatus == Unremitted && adjs[j].worklogId < |wls|
  }

  /** Segment `j` is picked up and its worklog belongs to worker `w`. */
  predicate SegmentOf(segs: seq<TimeSegment>, wls: seq<WorkLog>, w: nat, j: nat)
  {
    SegmentSelected(segs, wls, j) && wls[segs[j].worklogId].workerId == w
  }

  predicate AdjustmentOf(adjs: seq<Adjustment>, wls: seq<WorkLog>, w: nat, j: nat)
  {
    AdjustmentSelected(adjs, wls, j) && wls[adjs[j].worklogId].workerId == w
  }

  /** The ids below `n` of the segments picked up for worker `w`. */
  function SegmentIds(segs: seq<TimeSegment>, wls: seq<WorkLog>, w: nat, n: nat): seq<nat>
    requires n <= |segs|
  {
    if n == 0 then []
    else SegmentIds(segs, wls, w, n - 1) + (if SegmentOf(segs, wls, w, n - 1) then [n - 1] else [])
  }

  /** The ids below `n` of the adjustments picked up for worker `w`. */
  function AdjustmentIds(adjs: seq<Adjustment>, wls: seq<WorkLog>, w: nat, n: nat): seq<nat>
    requires n <= |adjs|
  {
    if n == 0 then []
    else AdjustmentIds(adjs, wls, w, n - 1) + (if AdjustmentOf(adjs, wls, w, n - 1) then [n - 1] else [])
  }

  function WorkerSegments(segs: seq<TimeSegment>, wls: seq<WorkLog>, w: nat): seq<nat>
  {
    SegmentIds(segs, wls, w, |segs|)
  }

  function WorkerAdjustments(adjs: seq<Adjustment>, wls: seq<WorkLog>, w: nat): seq<nat>
  {
    AdjustmentIds(adjs, wls, w, |adjs|)
  }

  /** A worker's segment list holds exactly the segments picked up for it. */
  lemma {:induction false} SegmentIdsExact(segs: seq<TimeSegment>, wls: seq<WorkLog>, w: nat, n: nat, j: nat)
    requires n <= |segs|
    ensures j in SegmentIds(segs, wls, w, n) <==> j < n && SegmentOf(segs, wls, w, j)
  {
    if n > 0 {
      SegmentIdsExact(segs, wls, w, n - 1, j);
    }
  }

  /** A worker's adjustment list holds exactly the adjustments picked up for it. */
  lemma {:induction false} AdjustmentIdsExact(adjs: seq<Adjustment>, wls: seq<WorkLog>, w: nat, n: nat, j: nat)
    requires n <= |adjs|
    ensures j in AdjustmentIds(adjs, wls, w, n) <==> j < n && AdjustmentOf(adjs, wls, w, j)
  {
    if n > 0 {
      AdjustmentIdsExact(adjs, wls, w, n - 1, j);
    }
  }

  /** Every id in a worker's segment list names a segment picked up for it. */
  lemma WorkerSegmentsSelected(segs: seq<TimeSegment>, wls: seq<WorkLog>, w: nat)
    ensures forall i :: 0 <= i < |WorkerSegments(segs, wls, w)| ==> SegmentOf(segs, wls, w, WorkerSegments(segs, wls, w)[i])
  {
    var ids := WorkerSegments(segs, wls, w);
    forall i | 0 <= i < |ids| ensures SegmentOf(segs, wls, w, ids[i]) {
      SegmentIdsExact(segs, wls, w, |segs|, ids[i]);
    }
  }

  /** Every id in a worker's adjustment list names an adjustment picked up for it. */
  lemma WorkerAdjustmentsSelected(adjs: seq<Adjustment>, wls: seq<WorkLog>, w: nat)
    ensures forall i :: 0 <= i < |WorkerAdjustments(adjs, wls, w)| ==> AdjustmentOf(adjs, wls, w, WorkerAdjustments(adjs, wls, w)[i])
  {
    var ids := WorkerAdjustments(adjs, wls, w);
    forall i | 0 <= i < |ids| ensures AdjustmentOf(adjs, wls, w, ids[i]) {
      AdjustmentIdsExact(adjs, wls, w, |adjs|, ids[i]);
    }
  }

  /** The price of segment `j` at its worklog's hourly rate (0 for an id
      out of range). */
  function UnitPrice(segs: seq<TimeSegment>, wls: seq<WorkLog>, j: nat): Cents
  {
    if j < |segs| && segs[j].worklogId < |wls| then SegmentValue(segs[j], wls[segs[j].worklogId].hourlyRate)
    else 0
  }

  function AdjustmentAmount(adjs: seq<Adjustment>, j: nat): Cents
  {
    if j < |adjs| then adjs[j].amount else 0
  }

  /** The positive part of an amount: what it adds to a gross total. */
  function Positive(c: Cents): Cents
  {
    if c > 0 then c else 0
  }

  /** Net of a list of segments: every price, signed. */
  function SegmentsNet(segs: seq<TimeSegment>, wls: seq<WorkLog>, ids: seq<nat>): Cents
  {
    if ids == [] then 0
    else SegmentsNet(segs, wls, ids[..|ids| - 1]) + UnitPrice(segs, wls, ids[|ids| - 1])
  }

  /** Gross of a list of segments: only the positive prices. */
  function SegmentsGross(segs: seq<TimeSegment>, wls: seq<WorkLog>, ids: seq<nat>): Cents
  {
    if ids == [] then 0
    else SegmentsGross(segs, wls, ids[..|ids| - 1]) + Positive(UnitPrice(segs, wls, ids[|ids| - 1]))
  }

  function AdjustmentsNet(adjs: seq<Adjustment>, ids: seq<nat>): Cents
  {
    if ids == [] then 0
    else AdjustmentsNet(adjs, ids[..|ids| - 1]) + AdjustmentAmount(adjs, ids[|ids| - 1])
  }

  function AdjustmentsGross(adjs: seq<Adjustment>, ids: seq<nat>): Cents
  {
    if ids == [] then 0
    else AdjustmentsGross(adjs, ids[..|ids| - 1]) + Positive(AdjustmentAmount(adjs, ids[|ids| - 1]))
  }

  /** The prices of the listed segments that lie on worklog `l`. */
  function SegmentsOn(segs: seq<TimeSegment>, wls: seq<WorkLog>, ids: seq<nat>, l: nat): Cents
  {
    if ids == [] then 0
    else
      var j := ids[|ids| - 1];
      SegmentsOn(segs, wls, ids[..|ids| - 1], l) + (if j < |segs| && segs[j].worklogId == l then UnitPrice(segs, wls, j) else 0)
  }

  /** The amounts of the listed adjustments that lie on worklog `l`. */
  function AdjustmentsOn(adjs: seq<Adjustment>, ids: seq<nat>, l: nat): Cents
  {
    if ids == [] then 0
    else
      var j := ids[|ids| - 1];
      AdjustmentsOn(adjs, ids[..|ids| - 1], l) + (if j < |adjs| && adjs[j].worklogId == l then adjs[j].amount else 0)
  }

  /** The worklogs the listed segments lie on. */
  function SegmentWorklogs(segs: seq<TimeSegment>, ids: seq<nat>): set<nat>
  {
    if ids == [] then {}
    else
      var j := ids[|ids| - 1];
      SegmentWorklogs(segs, ids[..|ids| - 1]) + (if j < |segs| then {segs[j].worklogId} else {})
  }

  function AdjustmentWorklogs(adjs: seq<Adjustment>, ids: seq<nat>): set<nat>
  {
    if ids == [] then {}
    else
      var j := ids[|ids| - 1];
      AdjustmentWorklogs(adjs, ids[..|ids| - 1]) + (if j < |adjs| then {adjs[j].worklogId} else {})
  }

  /** No listed segment is an ACTIVE one that ends before it starts. */
  predicate IdsPriceable(segs: seq<TimeSegment>, ids: seq<nat>)
  {
    forall i :: 0 <= i < |ids| && ids[i] < |segs| ==> SegmentPriceable(segs[ids[i]])
  }

  /** No segment the run picks up ends before it starts. */
  predicate AllSelectedPriceable(segs: seq<TimeSegment>, wls: seq<WorkLog>)
  {
    forall j :: 0 <= j < |segs| && SegmentSelected(segs, wls, j) ==> SegmentPriceable(segs[j])
  }

  /** What worker `w` would be paid: net is every price signed, gross only
      the positive ones, over all of the worker's picked-up units. */
  function WorkerNet(segs: seq<TimeSegment>, adjs: seq<Adjustment>, wls: seq<WorkLog>, w: nat): Cents
  {
    SegmentsNet(segs, wls, WorkerSegments(segs, wls, w)) + AdjustmentsNet(adjs, WorkerAdjustments(adjs, wls, w))
  }

  function WorkerGross(segs: seq<TimeSegment>, adjs: seq<Adjustment>, wls: seq<WorkLog>, w: nat): Cents
  {
    SegmentsGross(segs, wls, WorkerSegments(segs, wls, w)) + AdjustmentsGross(adjs, WorkerAdjustments(adjs, wls, w))
  }

  /** The distinct worklogs worker `w`'s picked-up units lie on. */
  function WorkerWorklogs(segs: seq<TimeSegment>, adjs: seq<Adjustment>, wls: seq<WorkLog>, w: nat): set<nat>
  {
    SegmentWorklogs(segs, WorkerSegments(segs, wls, w)) + AdjustmentWorklogs(adjs, WorkerAdjustments(adjs, wls, w))
  }

  /** The workers owning at least one picked-up unit. */
  function SelectedWorkers(segs: seq<TimeSegment>, adjs: seq<Adjustment>, wls: seq<WorkLog>): set<nat>
  {
    (set j | 0 <= j < |segs| && SegmentSelected(segs, wls, j) :: wls[segs[j].worklogId].workerId)
    + (set j | 0 <= j < |adjs| && AdjustmentSelected(adjs, wls, j) :: wls[adjs[j].worklogId].workerId)
  }

  /** A worker whose gross and net are both 0 is passed over. */
  predicate Skipped(segs: seq<TimeSegment>, adjs: seq<Adjustment>, wls: seq<WorkLog>, w: nat)
  {
    WorkerGross(segs, adjs, wls, w) == 0 && WorkerNet(segs, adjs, wls, w) == 0
  }

  /** The workers a run makes a remittance for. */
  function PaidWorkers(segs: seq<TimeSegment>, adjs: seq<Adjustment>, wls: seq<WorkLog>): set<nat>
  {
    set w | w in SelectedWorkers(segs, adjs, wls) && !Skipped(segs, adjs, wls, w)
  }

  // ---------------------------------------------------------------------
  // Settlement
  // ---------------------------------------------------------------------

  function SettleSegment(s: TimeSegment, rid: nat): TimeSegment
  {
    s.(settlementStatus := Remitted, remittanceId := Some(rid))
  }

  function SettleAdjustment(a: Adjustment, rid: nat): Adjustment
  {
    a.(settlementStatus := Remitted, remittanceId := Some(rid))
  }

  /** A worklog credited with `amount` and linked as `link` says. */
  function Credited(wl: WorkLog, amount: Cents, link: Option<nat>): WorkLog
  {
    wl.(totalRemittedAmount := wl.totalRemittedAmount + amount, remittanceId := link)
  }

  /** The segment table once every worker in `assign` is settled under the
      remittance `assign` gives it. */
  function SettledSegments(segs: seq<TimeSegment>, wls: seq<WorkLog>, assign: map<nat, nat>): seq<TimeSegment>
  {
    seq(|segs|, j requires 0 <= j < |segs| =>
      if SegmentSelected(segs, wls, j) && wls[segs[j].worklogId].workerId in assign
      then SettleSegment(segs[j], assign[wls[segs[j].worklogId].workerId])
      else segs[j])
  }

  function SettledAdjustments(adjs: seq<Adjustment>, wls: seq<WorkLog>, assign: map<nat, nat>): seq<Adjustment>
  {
    seq(|adjs|, j requires 0 <= j < |adjs| =>
      if AdjustmentSelected(adjs, wls, j) && wls[adjs[j].worklogId].workerId in assign
      then SettleAdjustment(adjs[j], assign[wls[adjs[j].worklogId].workerId])
      else adjs[j])
  }

  /** The worklog table once every worker in `assign` is settled: each of a
      settled worker's worklogs is credited with its units' prices, and
      linked to the remittance when one of its segments was settled. */
  function SettledWorklogs(segs: seq<TimeSegment>, adjs: seq<Adjustment>, wls: seq<WorkLog>, assign: map<nat, nat>): seq<WorkLog>
  {
    seq(|wls|, l requires 0 <= l < |wls| =>
      var w := wls[l].workerId;
      if w in assign then
        var segIds := WorkerSegments(segs, wls, w);
        Credited(wls[l], SegmentsOn(segs, wls, segIds, l) + AdjustmentsOn(adjs, WorkerAdjustments(adjs, wls, w), l),
                 if l in SegmentWorklogs(segs, segIds) then Some(assign[w]) else wls[l].remittanceId)
      else wls[l])
  }

  // ---------------------------------------------------------------------
  // What a run reports and records
  // ---------------------------------------------------------------------

  /** One remittance of a run as reported; `id` is the new row's id. */
  datatype BatchSummary = BatchSummary(
    id: nat,
    workerId: nat,
    grossAmount: Cents,
    netAmount: Cents,
    status: RemittanceStatus,
    worklogsCount: nat,
    periodStart: Date,
    periodEnd: Date)

  datatype BatchResult = BatchResult(
    remittancesCreated: nat,
    totalGrossAmount: Cents,
    totalNetAmount: Cents,
    remittances: seq<BatchSummary>,
    dryRun: bool,
    periodStart: Date,
    periodEnd: Date)

  /** The requested payout status, COMPLETED when none is given. */
  function ChosenStatus(payoutStatus: Option<RemittanceStatus>): RemittanceStatus
  {
    if payoutStatus.Some? then payoutStatus.value else Completed
  }

  /** FAILED and CANCELLED payouts carry a reason naming the status. */
  function FailureReason(status: RemittanceStatus): (reason: Option<string>)
    ensures reason.Some? <==> status == Failed || status == Cancelled
  {
    if status == Failed || status == Cancelled then Some("Payout marked as " + status.Value() + " by request")
    else None
  }

  /** The summary a run reports for worker `w`. */
  function ExpectedSummary(segs: seq<TimeSegment>, adjs: seq<Adjustment>, wls: seq<WorkLog>, w: nat, id: nat,
                           status: RemittanceStatus, periodStart: Date, periodEnd: Date): BatchSummary
  {
    BatchSummary(id, w, WorkerGross(segs, adjs, wls, w), WorkerNet(segs, adjs, wls, w), status,
                 |WorkerWorklogs(segs, adjs, wls, w)|, periodStart, periodEnd)
  }

  /** The remittance row persisted for a summary; `now` is the processing
      time, recorded only for a COMPLETED payout. */
  function RecordOf(s: BatchSummary, now: int): Remittance
  {
    Remittance(s.workerId, s.grossAmount, s.netAmount, s.status, FailureReason(s.status),
               Some(s.periodStart), Some(s.periodEnd), if s.status == Completed then Some(now) else None)
  }

  /** The rows persisted for the summaries, in order. */
  function Records(ss: seq<BatchSummary>, now: int): (rs: seq<Remittance>)
    ensures |rs| == |ss|
  {
    if ss == [] then [] else Records(ss[..|ss| - 1], now) + [RecordOf(ss[|ss| - 1], now)]
  }

  function SumGross(ss: seq<BatchSummary>): Cents
  {
    if ss == [] then 0 else SumGross(ss[..|ss| - 1]) + ss[|ss| - 1].grossAmount
  }

  function SumNet(ss: seq<BatchSummary>): Cents
  {
    if ss == [] then 0 else SumNet(ss[..|ss| - 1]) + ss[|ss| - 1].netAmount
  }

  /** The workers the summaries are for. */
  function SummaryWorkers(ss: seq<BatchSummary>): set<nat>
  {
    if ss == [] then {} else SummaryWorkers(ss[..|ss| - 1]) + {ss[|ss| - 1].workerId}
  }

  /** No worker is reported twice. */
  predicate DistinctWorkers(ss: seq<BatchSummary>)
  {
    ss == [] || (DistinctWorkers(ss[..|ss| - 1]) && ss[|ss| - 1].workerId !in SummaryWorkers(ss[..|ss| - 1]))
  }

  /** Each summary is the one expected for its worker, the ids counting up
      from `id0`. */
  predicate AsExpected(segs: seq<TimeSegment>, adjs: seq<Adjustment>, wls: seq<WorkLog>, ss: seq<BatchSummary>,
                       id0: nat, status: RemittanceStatus, start: Date, end: Date)
  {
    ss == []
    || (&& AsExpected(segs, adjs, wls, ss[..|ss| - 1], id0, status, start, end)
        && ss[|ss| - 1] == ExpectedSummary(segs, adjs, wls, ss[|ss| - 1].workerId, id0 + |ss| - 1, status, start, end))
  }

  /** Which remittance each reported worker was paid under. */
  function AssignmentOf(ss: seq<BatchSummary>): map<nat, nat>
  {
    if ss == [] then map[]
    else AssignmentOf(ss[..|ss| - 1])[ss[|ss| - 1].workerId := ss[|ss| - 1].id]
  }

  /** The reported workers are the workers of the summaries. */
  lemma {:induction false} SummaryWorkersMembers(ss: seq<BatchSummary>, w: nat)
    ensures w in SummaryWorkers(ss) <==> exists k :: 0 <= k < |ss| && ss[k].workerId == w
  {
    if ss != [] {
      var prev := ss[..|ss| - 1];
      SummaryWorkersMembers(prev, w);
      if exists k :: 0 <= k < |prev| && prev[k].workerId == w {
        var k :| 0 <= k < |prev| && prev[k].workerId == w;
        assert ss[k].workerId == w;
      }
      if exists k :: 0 <= k < |ss| && ss[k].workerId == w {
        var k :| 0 <= k < |ss| && ss[k].workerId == w;
        if k < |prev| {
          assert prev[k].workerId == w;
        }
      }
    }
  }

  /** Distinctness as defined is pairwise distinctness. */
  lemma {:induction false} DistinctWorkersPairwise(ss: seq<BatchSummary>)
    ensures DistinctWorkers(ss) <==> forall k, k' :: 0 <= k < k' < |ss| ==> ss[k].workerId != ss[k'].workerId
  {
    if ss != [] {
      var prev := ss[..|ss| - 1];
      var last := ss[|ss| - 1];
      DistinctWorkersPairwise(prev);
      SummaryWorkersMembers(prev, last.workerId);
      assert forall k :: 0 <= k < |prev| ==> prev[k] == ss[k];
    }
  }

  /** Each summary as expected, index by index: the k-th is the summary
      expected for its worker under id `id0 + k`. */
  lemma {:induction false} AsExpectedPointwise(segs: seq<TimeSegment>, adjs: seq<Adjustment>, wls: seq<WorkLog>,
                                               ss: seq<BatchSummary>, id0: nat, status: RemittanceStatus, start: Date, end: Date)
    requires AsExpected(segs, adjs, wls, ss, id0, status, start, end)
    ensures forall k :: 0 <= k < |ss| ==> ss[k] == ExpectedSummary(segs, adjs, wls, ss[k].workerId, id0 + k, status, start, end)
  {
    if ss != [] {
      var prev := ss[..|ss| - 1];
      AsExpectedPointwise(segs, adjs, wls, prev, id0, status, start, end);
      assert forall k :: 0 <= k < |prev| ==> prev[k] == ss[k];
    }
  }

  /** The row persisted for each summary. */
  lemma {:induction false} RecordsPointwise(ss: seq<BatchSummary>, now: int)
    ensures forall k :: 0 <= k < |ss| ==> Records(ss, now)[k] == RecordOf(ss[k], now)
  {
    if ss != [] {
      var prev := ss[..|ss| - 1];
      RecordsPointwise(prev, now);
      assert forall k :: 0 <= k < |prev| ==> prev[k] == ss[k];
    }
  }

  /** The assignment covers exactly the reported workers and, with each
      worker reported once, maps each to its own remittance. */
  lemma {:induction false} AssignmentOfSummaries(ss: seq<BatchSummary>)
    ensures AssignmentOf(ss).Keys == SummaryWorkers(ss)
    ensures DistinctWorkers(ss) ==> forall k :: 0 <= k < |ss| ==>
      ss[k].workerId in AssignmentOf(ss) && AssignmentOf(ss)[ss[k].workerId] == ss[k].id
  {
    if ss != [] {
      var prev := ss[..|ss| - 1];
      AssignmentOfSummaries(prev);
      assert forall k :: 0 <= k < |prev| ==> prev[k] == ss[k];
      if DistinctWorkers(ss) {
        forall k | 0 <= k < |prev|
          ensures ss[k].workerId in AssignmentOf(ss) && AssignmentOf(ss)[ss[k].workerId] == ss[k].id
        {
          SummaryWorkersMembers(prev, prev[k].workerId);
        }
      }
    }
  }
}
