/** The running total a worklog keeps of what has been paid for it, and the
    ledger it should agree with: settling a worker credits each of its
    worklogs with exactly what the ledger says is still owed there, so a
    worklog whose running total matched its paid amount before a COMPLETED
    run still matches it afterwards. */
module Credits {
  import opened Models
  import opened Pricing
  import opened Ledger
  import opened Listing
  import opened Selection

  /** Every worklog's running total is the paid amount of its ledger. */
  predicate PaidMatchesLedger(segs: seq<TimeSegment>, adjs: seq<Adjustment>, wls: seq<WorkLog>)
  {
    forall l :: 0 <= l < |wls| ==> wls[l].totalRemittedAmount == WorklogLedger(segs, adjs, wls, l).remitted
  }

  lemma SegmentsOnSnoc(segs: seq<TimeSegment>, wls: seq<WorkLog>, ids: seq<nat>, j: nat, l: nat)
    ensures SegmentsOn(segs, wls, ids + [j], l)
            == SegmentsOn(segs, wls, ids, l) + (if j < |segs| && segs[j].worklogId == l then UnitPrice(segs, wls, j) else 0)
  {
    assert (ids + [j])[..|ids|] == ids;
  }

  lemma AdjustmentsOnSnoc(adjs: seq<Adjustment>, ids: seq<nat>, j: nat, l: nat)
    ensures AdjustmentsOn(adjs, ids + [j], l)
            == AdjustmentsOn(adjs, ids, l) + (if j < |adjs| && adjs[j].worklogId == l then adjs[j].amount else 0)
  {
    assert (ids + [j])[..|ids|] == ids;
  }

  lemma SegmentsInSnoc(xs: seq<TimeSegment>, x: TimeSegment, rate: Cents, st: SettlementStatus)
    ensures SegmentsIn(xs + [x], rate, st)
            == SegmentsIn(xs, rate, st) + (if x.status == Active && x.settlementStatus == st then SegmentValue(x, rate) else 0)
  {
    assert (xs + [x])[..|xs|] == xs;
  }

  lemma AdjustmentsInSnoc(xs: seq<Adjustment>, x: Adjustment, st: SettlementStatus)
    ensures AdjustmentsIn(xs + [x], st) == AdjustmentsIn(xs, st) + (if x.settlementStatus == st then x.amount else 0)
  {
    assert (xs + [x])[..|xs|] == xs;
  }

  /** The segments on worklog `l` among the first `n` grow by the `n`-th
      when it lies on `l`. */
  lemma WorklogSegmentsNext(segs: seq<TimeSegment>, l: nat, n: nat)
    requires 0 < n <= |segs|
    ensures WorklogSegments(segs[..n], l)
            == WorklogSegments(segs[..n - 1], l) + (if segs[n - 1].worklogId == l then [segs[n - 1]] else [])
  {
    assert segs[..n][..n - 1] == segs[..n - 1];
  }

  lemma WorklogAdjustmentsNext(adjs: seq<Adjustment>, l: nat, n: nat)
    requires 0 < n <= |adjs|
    ensures WorklogAdjustments(adjs[..n], l)
            == WorklogAdjustments(adjs[..n - 1], l) + (if adjs[n - 1].worklogId == l then [adjs[n - 1]] else [])
  {
    assert adjs[..n][..n - 1] == adjs[..n - 1];
  }

  /** The prices of the owner's picked-up segments that lie on worklog `l`
      are what the ledger of `l` counts as owed for segments. */
  lemma {:induction false} SegmentsCreditOwed(segs: seq<TimeSegment>, wls: seq<WorkLog>, l: nat, n: nat)
    requires l < |wls| && n <= |segs|
    ensures SegmentsOn(segs, wls, SegmentIds(segs, wls, wls[l].workerId, n), l)
            == SegmentsIn(WorklogSegments(segs[..n], l), wls[l].hourlyRate, Unremitted)
  {
    if n > 0 {
      var w, rate, s := wls[l].workerId, wls[l].hourlyRate, segs[n - 1];
      SegmentsCreditOwed(segs, wls, l, n - 1);
      var ids, ids' := SegmentIds(segs, wls, w, n - 1), SegmentIds(segs, wls, w, n);
      var ws, ws' := WorklogSegments(segs[..n - 1], l), WorklogSegments(segs[..n], l);
      WorklogSegmentsNext(segs, l, n);
      var owed := if s.worklogId == l && s.status == Active && s.settlementStatus == Unremitted then SegmentValue(s, rate) else 0;
      if s.worklogId == l {
        SegmentsInSnoc(ws, s, rate, Unremitted);
        assert SegmentOf(segs, wls, w, n - 1) <==> s.status == Active && s.settlementStatus == Unremitted;
      } else {
        assert ws' == ws;
      }
      assert SegmentsIn(ws', rate, Unremitted) == SegmentsIn(ws, rate, Unremitted) + owed;
      if SegmentOf(segs, wls, w, n - 1) {
        assert ids' == ids + [n - 1];
        SegmentsOnSnoc(segs, wls, ids, n - 1, l);
      } else {
        assert ids' == ids && owed == 0;
      }
      assert SegmentsOn(segs, wls, ids', l) == SegmentsOn(segs, wls, ids, l) + owed;
    }
  }

  /** The amounts of the owner's picked-up adjustments that lie on worklog
      `l` are what the ledger of `l` counts as owed for adjustments. */
  lemma {:induction false} AdjustmentsCreditOwed(adjs: seq<Adjustment>, wls: seq<WorkLog>, l: nat, n: nat)
    requires l < |wls| && n <= |adjs|
    ensures AdjustmentsOn(adjs, AdjustmentIds(adjs, wls, wls[l].workerId, n), l)
            == AdjustmentsIn(WorklogAdjustments(adjs[..n], l), Unremitted)
  {
    if n > 0 {
      var w, a := wls[l].workerId, adjs[n - 1];
      AdjustmentsCreditOwed(adjs, wls, l, n - 1);
      var ids, ids' := AdjustmentIds(adjs, wls, w, n - 1), AdjustmentIds(adjs, wls, w, n);
      var was, was' := WorklogAdjustments(adjs[..n - 1], l), WorklogAdjustments(adjs[..n], l);
      WorklogAdjustmentsNext(adjs, l, n);
      var owed := if a.worklogId == l && a.settlementStatus == Unremitted then a.amount else 0;
      if a.worklogId == l {
        AdjustmentsInSnoc(was, a, Unremitted);
        assert AdjustmentOf(adjs, wls, w, n - 1) <==> a.settlementStatus == Unremitted;
      } else {
        assert was' == was;
      }
      assert AdjustmentsIn(was', Unremitted) == AdjustmentsIn(was, Unremitted) + owed;
      if AdjustmentOf(adjs, wls, w, n - 1) {
        assert ids' == ids + [n - 1];
        AdjustmentsOnSnoc(adjs, ids, n - 1, l);
      } else {
        assert ids' == ids && owed == 0;
      }
      assert AdjustmentsOn(adjs, ids', l) == AdjustmentsOn(adjs, ids, l) + owed;
    }
  }

  /** Settling a worker credits each of its worklogs with exactly the
      amount the ledger shows as still owed on it. */
  lemma CreditIsOwedAmount(segs: seq<TimeSegment>, adjs: seq<Adjustment>, wls: seq<WorkLog>, assign: map<nat, nat>, l: nat)
    requires l < |wls| && wls[l].workerId in assign
    ensures SettledWorklogs(segs, adjs, wls, assign)[l].totalRemittedAmount
            == wls[l].totalRemittedAmount + WorklogLedger(segs, adjs, wls, l).unremitted
  {
    var w := wls[l].workerId;
    var segIds, adjIds := WorkerSegments(segs, wls, w), WorkerAdjustments(adjs, wls, w);
    var credit := SegmentsOn(segs, wls, segIds, l) + AdjustmentsOn(adjs, adjIds, l);
    assert SettledWorklogs(segs, adjs, wls, assign)[l].totalRemittedAmount == wls[l].totalRemittedAmount + credit;
    SegmentsCreditOwed(segs, wls, l, |segs|);
    AdjustmentsCreditOwed(adjs, wls, l, |adjs|);
    assert segs[..|segs|] == segs;
    assert adjs[..|adjs|] == adjs;
    assert credit == WorklogLedger(segs, adjs, wls, l).unremitted;
  }

  /** Settling a segment changes what it is worth in no way. */
  lemma SettlingKeepsValue(s: TimeSegment, rid: nat, rate: Cents)
    ensures SegmentValue(SettleSegment(s, rid), rate) == SegmentValue(s, rate)
  {
  }

  /** After settling, the paid segments of worklog `l` are those paid
      before plus, when its owner was settled, those that were owed. */
  lemma {:induction false} SettledSegmentsPaid(segs: seq<TimeSegment>, wls: seq<WorkLog>, assign: map<nat, nat>, l: nat, n: nat)
    requires l < |wls| && n <= |segs|
    ensures var rate, settled := wls[l].hourlyRate, SettledSegments(segs, wls, assign);
            SegmentsIn(WorklogSegments(settled[..n], l), rate, Remitted)
            == SegmentsIn(WorklogSegments(segs[..n], l), rate, Remitted)
               + (if wls[l].workerId in assign then SegmentsIn(WorklogSegments(segs[..n], l), rate, Unremitted) else 0)
  {
    if n > 0 {
      var rate, settled := wls[l].hourlyRate, SettledSegments(segs, wls, assign);
      var s, s' := segs[n - 1], settled[n - 1];
      SettledSegmentsPaid(segs, wls, assign, l, n - 1);
      var ws, ws' := WorklogSegments(segs[..n - 1], l), WorklogSegments(segs[..n], l);
      var vs, vs' := WorklogSegments(settled[..n - 1], l), WorklogSegments(settled[..n], l);
      WorklogSegmentsNext(segs, l, n);
      WorklogSegmentsNext(settled, l, n);
      var paid := if s'.worklogId == l && s'.status == Active && s'.settlementStatus == Remitted then SegmentValue(s', rate) else 0;
      var was := if s.worklogId == l && s.status == Active && s.settlementStatus == Remitted then SegmentValue(s, rate) else 0;
      var owed := if s.worklogId == l && s.status == Active && s.settlementStatus == Unremitted then SegmentValue(s, rate) else 0;
      if s.worklogId == l {
        SegmentsInSnoc(ws, s, rate, Remitted);
        SegmentsInSnoc(ws, s, rate, Unremitted);
        SegmentsInSnoc(vs, s', rate, Remitted);
        assert SegmentSelected(segs, wls, n - 1) <==> s.status == Active && s.settlementStatus == Unremitted;
        if SegmentSelected(segs, wls, n - 1) && wls[l].workerId in assign {
          SettlingKeepsValue(s, assign[wls[l].workerId], rate);
        } else {
          assert s' == s;
        }
      } else {
        assert ws' == ws && vs' == vs;
      }
      assert paid == was + (if wls[l].workerId in assign then owed else 0);
      assert SegmentsIn(vs', rate, Remitted) == SegmentsIn(vs, rate, Remitted) + paid;
      assert SegmentsIn(ws', rate, Remitted) == SegmentsIn(ws, rate, Remitted) + was;
      assert SegmentsIn(ws', rate, Unremitted) == SegmentsIn(ws, rate, Unremitted) + owed;
    }
  }

  /** Settling keeps an adjustment on its worklog, and what it adds to that
      worklog's paid amount is what it added before plus, when the owner
      was settled, what it owed. */
  lemma SettledAdjustmentAt(adjs: seq<Adjustment>, wls: seq<WorkLog>, assign: map<nat, nat>, l: nat, j: nat)
    requires l < |wls| && j < |adjs|
    ensures var a, a' := adjs[j], SettledAdjustments(adjs, wls, assign)[j];
            && a'.worklogId == a.worklogId
            && (if a'.worklogId == l && a'.settlementStatus == Remitted then a'.amount else 0)
               == (if a.worklogId == l && a.settlementStatus == Remitted then a.amount else 0)
                  + (if wls[l].workerId in assign && a.worklogId == l && a.settlementStatus == Unremitted then a.amount else 0)
  {
  }

  /** After settling, the paid adjustments of worklog `l` are those paid
      before plus, when its owner was settled, those that were owed. */
  lemma {:induction false} SettledAdjustmentsPaid(adjs: seq<Adjustment>, wls: seq<WorkLog>, assign: map<nat, nat>, l: nat, n: nat)
    requires l < |wls| && n <= |adjs|
    ensures var settled := SettledAdjustments(adjs, wls, assign);
            AdjustmentsIn(WorklogAdjustments(settled[..n], l), Remitted)
            == AdjustmentsIn(WorklogAdjustments(adjs[..n], l), Remitted)
               + (if wls[l].workerId in assign then AdjustmentsIn(WorklogAdjustments(adjs[..n], l), Unremitted) else 0)
  {
    if n > 0 {
      var settled := SettledAdjustments(adjs, wls, assign);
      var a, a' := adjs[n - 1], settled[n - 1];
      SettledAdjustmentsPaid(adjs, wls, assign, l, n - 1);
      var was, was' := WorklogAdjustments(adjs[..n - 1], l), WorklogAdjustments(adjs[..n], l);
      var vs, vs' := WorklogAdjustments(settled[..n - 1], l), WorklogAdjustments(settled[..n], l);
      WorklogAdjustmentsNext(adjs, l, n);
      WorklogAdjustmentsNext(settled, l, n);
      SettledAdjustmentAt(adjs, wls, assign, l, n - 1);
      if a.worklogId == l {
        AdjustmentsInSnoc(was, a, Remitted);
        AdjustmentsInSnoc(was, a, Unremitted);
        AdjustmentsInSnoc(vs, a', Remitted);
      } else {
        assert was' == was && vs' == vs;
      }
    }
  }

  /** One worklog's running total still matches its paid amount after
      settling: a settled worklog is credited with exactly what moves from
      owed to paid in its ledger, and an unsettled one keeps both. */
  lemma SettlingKeepsPaidAt(segs: seq<TimeSegment>, adjs: seq<Adjustment>, wls: seq<WorkLog>, assign: map<nat, nat>, l: nat)
    requires l < |wls| && wls[l].totalRemittedAmount == WorklogLedger(segs, adjs, wls, l).remitted
    ensures var segs', adjs', wls' :=
              SettledSegments(segs, wls, assign), SettledAdjustments(adjs, wls, assign), SettledWorklogs(segs, adjs, wls, assign);
            l < |wls'| && wls'[l].totalRemittedAmount == WorklogLedger(segs', adjs', wls', l).remitted
  {
    var segs', adjs', wls' :=
      SettledSegments(segs, wls, assign), SettledAdjustments(adjs, wls, assign), SettledWorklogs(segs, adjs, wls, assign);
    var rate := wls[l].hourlyRate;
    assert wls'[l].hourlyRate == rate;
    SettledSegmentsPaid(segs, wls, assign, l, |segs|);
    SettledAdjustmentsPaid(adjs, wls, assign, l, |adjs|);
    assert segs[..|segs|] == segs && segs'[..|segs|] == segs';
    assert adjs[..|adjs|] == adjs && adjs'[..|adjs|] == adjs';
    var before, after := WorklogLedger(segs, adjs, wls, l), WorklogLedger(segs', adjs', wls', l);
    assert after.remitted == before.remitted + (if wls[l].workerId in assign then before.unremitted else 0);
    if wls[l].workerId in assign {
      CreditIsOwedAmount(segs, adjs, wls, assign, l);
    } else {
      assert wls'[l] == wls[l];
    }
  }

  /** Settling keeps every worklog's running total equal to its paid
      amount, for every assignment of workers to remittances. */
  lemma SettlingKeepsPaidExact(segs: seq<TimeSegment>, adjs: seq<Adjustment>, wls: seq<WorkLog>, assign: map<nat, nat>)
    requires PaidMatchesLedger(segs, adjs, wls)
    ensures PaidMatchesLedger(SettledSegments(segs, wls, assign), SettledAdjustments(adjs, wls, assign),
                              SettledWorklogs(segs, adjs, wls, assign))
  {
    forall l | 0 <= l < |wls|
      ensures var segs', adjs', wls' :=
                SettledSegments(segs, wls, assign), SettledAdjustments(adjs, wls, assign), SettledWorklogs(segs, adjs, wls, assign);
              wls'[l].totalRemittedAmount == WorklogLedger(segs', adjs', wls', l).remitted
    {
      SettlingKeepsPaidAt(segs, adjs, wls, assign, l);
    }
  }
}
