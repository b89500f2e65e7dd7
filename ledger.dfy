/** The per-worklog ledger: what has been paid, what is still owed, and the
    overall REMITTED / UNREMITTED classification derived from the two. */
module Ledger {
  import opened Wrappers
  import opened Models
  import opened Errors
  import opened Pricing

  /** The three amounts the ledger reports for a worklog. */
  datatype Amounts = Amounts(remitted: Cents, unremitted: Cents, total: Cents)

  /** The classification reported for a worklog. */
  datatype WorkLogStatus = RemittedStatus | UnremittedStatus
  {
    function Value(): string
    {
      match this
      case RemittedStatus => "REMITTED"
      case UnremittedStatus => "UNREMITTED"
    }
  }

  /** The prices of the ACTIVE segments whose settlement status is `st`. */
  function SegmentsIn(segs: seq<TimeSegment>, rate: Cents, st: SettlementStatus): Cents
  {
    if segs == [] then 0
    else
      var last := segs[|segs| - 1];
      SegmentsIn(segs[..|segs| - 1], rate, st)
      + (if last.status == Active && last.settlementStatus == st then SegmentValue(last, rate) else 0)
  }

  /** The signed amounts of the adjustments whose settlement status is `st`. */
  function AdjustmentsIn(adjs: seq<Adjustment>, st: SettlementStatus): Cents
  {
    if adjs == [] then 0
    else
      var last := adjs[|adjs| - 1];
      AdjustmentsIn(adjs[..|adjs| - 1], st) + (if last.settlementStatus == st then last.amount else 0)
  }

  /** The ledger of a worklog with segments `segs`, adjustments `adjs` and
      hourly rate `rate`. */
  function LedgerAmounts(segs: seq<TimeSegment>, adjs: seq<Adjustment>, rate: Cents): Amounts
  {
    var remitted := SegmentsIn(segs, rate, Remitted) + AdjustmentsIn(adjs, Remitted);
    var unremitted := SegmentsIn(segs, rate, Unremitted) + AdjustmentsIn(adjs, Unremitted);
    Amounts(remitted, unremitted, remitted + unremitted)
  }

  /** Every segment of the worklog can be priced. */
  predicate Priceable(segs: seq<TimeSegment>)
  {
    forall i :: 0 <= i < |segs| ==> SegmentPriceable(segs[i])
  }

  /** A worklog is reported UNREMITTED when something is still owed or when
      nothing is payable at all; otherwise REMITTED. */
  function Classify(a: Amounts): WorkLogStatus
  {
    if a.unremitted > 0 || a.total == 0 then UnremittedStatus else RemittedStatus
  }

  /** Everything payable on the worklog, irrespective of settlement:
      all ACTIVE segments and all adjustments. */
  function PayableTotal(segs: seq<TimeSegment>, adjs: seq<Adjustment>, rate: Cents): Cents
  {
    if adjs != [] then PayableTotal(segs, adjs[..|adjs| - 1], rate) + adjs[|adjs| - 1].amount
    else if segs != [] then PayableTotal(segs[..|segs| - 1], [], rate) + SegmentValue(segs[|segs| - 1], rate)
    else 0
  }

  /** Computes the ledger by walking the segments and then the adjustments,
      putting each priced unit in the paid or the unpaid bucket. */
  method WorklogAmounts(rate: Cents, segs: seq<TimeSegment>, adjs: seq<Adjustment>) returns (r: Result<Amounts, Error>)
    ensures r.Failure? <==> !Priceable(segs)
    ensures r.Failure? ==> r.error == NegativeDuration
    ensures r.Success? ==> r.value == LedgerAmounts(segs, adjs, rate)
  {
    var remitted, unremitted := 0, 0;
    var i := 0;
    while i < |segs|
      invariant 0 <= i <= |segs|
      invariant Priceable(segs[..i])
      invariant remitted == SegmentsIn(segs[..i], rate, Remitted)
      invariant unremitted == SegmentsIn(segs[..i], rate, Unremitted)
    {
      assert segs[..i + 1][..i] == segs[..i];
      var seg := segs[i];
      if seg.status == Active {
        var amount := Price(seg, rate);
        if amount.Failure? {
          assert !Priceable(segs) by {
            assert segs[i].status == Active && segs[i].endTime < segs[i].startTime;
          }
          return Failure(amount.error);
        }
        if seg.settlementStatus == Remitted {
          remitted := remitted + amount.value;
        } else {
          unremitted := unremitted + amount.value;
        }
      }
      i := i + 1;
    }
    assert segs[..i] == segs;
    var j := 0;
    var adjRemitted, adjUnremitted := 0, 0;
    while j < |adjs|
      invariant 0 <= j <= |adjs|
      invariant adjRemitted == AdjustmentsIn(adjs[..j], Remitted)
      invariant adjUnremitted == AdjustmentsIn(adjs[..j], Unremitted)
    {
      assert adjs[..j + 1][..j] == adjs[..j];
      if adjs[j].settlementStatus == Remitted {
        adjRemitted := adjRemitted + adjs[j].amount;
      } else {
        adjUnremitted := adjUnremitted + adjs[j].amount;
      }
      j := j + 1;
    }
    assert adjs[..j] == adjs;
    remitted, unremitted := remitted + adjRemitted, unremitted + adjUnremitted;
    return Success(Amounts(remitted, unremitted, remitted + unremitted));
  }

  lemma {:induction false} SegmentsPartition(segs: seq<TimeSegment>, rate: Cents)
    ensures SegmentsIn(segs, rate, Remitted) + SegmentsIn(segs, rate, Unremitted) == PayableTotal(segs, [], rate)
  {
    if segs != [] {
      SegmentsPartition(segs[..|segs| - 1], rate);
    }
  }

  /** Every payable unit lands in exactly one bucket: paid plus unpaid is
      everything payable, whatever the settlement states are. */
  lemma {:induction false} LedgerPartition(segs: seq<TimeSegment>, adjs: seq<Adjustment>, rate: Cents)
    ensures LedgerAmounts(segs, adjs, rate).total == PayableTotal(segs, adjs, rate)
    ensures LedgerAmounts(segs, adjs, rate).remitted + LedgerAmounts(segs, adjs, rate).unremitted
            == PayableTotal(segs, adjs, rate)
  {
    if adjs == [] {
      SegmentsPartition(segs, rate);
    } else {
      LedgerPartition(segs, adjs[..|adjs| - 1], rate);
    }
  }

  /** A worklog with no segments and no adjustments has all three amounts 0
      and is reported UNREMITTED, not REMITTED. */
  lemma EmptyWorkLogIsUnremitted(rate: Cents)
    ensures LedgerAmounts([], [], rate) == Amounts(0, 0, 0)
    ensures Classify(LedgerAmounts([], [], rate)) == UnremittedStatus
  {
  }

  lemma {:induction false} NothingUnpaidInSegments(segs: seq<TimeSegment>, rate: Cents)
    requires forall i :: 0 <= i < |segs| && segs[i].status == Active ==> segs[i].settlementStatus == Remitted
    ensures SegmentsIn(segs, rate, Unremitted) == 0
  {
    if segs != [] {
      NothingUnpaidInSegments(segs[..|segs| - 1], rate);
    }
  }

  lemma {:induction false} NothingUnpaidInAdjustments(adjs: seq<Adjustment>)
    requires forall i :: 0 <= i < |adjs| ==> adjs[i].settlementStatus == Remitted
    ensures AdjustmentsIn(adjs, Unremitted) == 0
  {
    if adjs != [] {
      NothingUnpaidInAdjustments(adjs[..|adjs| - 1]);
    }
  }

  /** A worklog whose ACTIVE segments and adjustments are all REMITTED owes
      nothing, and is reported REMITTED exactly when its total is not 0. */
  lemma FullySettledIsRemitted(segs: seq<TimeSegment>, adjs: seq<Adjustment>, rate: Cents)
    requires forall i :: 0 <= i < |segs| && segs[i].status == Active ==> segs[i].settlementStatus == Remitted
    requires forall i :: 0 <= i < |adjs| ==> adjs[i].settlementStatus == Remitted
    ensures LedgerAmounts(segs, adjs, rate).unremitted == 0
    ensures Classify(LedgerAmounts(segs, adjs, rate)) == RemittedStatus
            <==> LedgerAmounts(segs, adjs, rate).total != 0
  {
    NothingUnpaidInSegments(segs, rate);
    NothingUnpaidInAdjustments(adjs);
  }

  /** A retroactive adjustment: adding a new adjustment to a worklog leaves
      what was paid alone and adds its amount to what is owed, so a positive
      one on a fully paid worklog makes it UNREMITTED again. */
  lemma RetroactiveAdjustment(segs: seq<TimeSegment>, adjs: seq<Adjustment>, rate: Cents, worklogId: nat,
                              amount: Cents, reason: string, kind: AdjustmentType)
    ensures var before := LedgerAmounts(segs, adjs, rate);
            var after := LedgerAmounts(segs, adjs + [NewAdjustment(worklogId, amount, reason, kind)], rate);
            && after.remitted == before.remitted
            && after.unremitted == before.unremitted + amount
            && (before.unremitted == 0 && amount > 0 ==> Classify(after) == UnremittedStatus)
  {
    var adjs' := adjs + [NewAdjustment(worklogId, amount, reason, kind)];
    assert adjs'[..|adjs'| - 1] == adjs;
  }

  lemma {:induction false} DeductionsOweNothing(adjs: seq<Adjustment>)
    requires forall i :: 0 <= i < |adjs| && adjs[i].settlementStatus == Unremitted ==> adjs[i].amount <= 0
    ensures AdjustmentsIn(adjs, Unremitted) <= 0
  {
    if adjs != [] {
      DeductionsOweNothing(adjs[..|adjs| - 1]);
    }
  }

  /** The asymmetric rule: only a positive owed amount counts as unpaid. A
      worklog whose ACTIVE segments are all REMITTED and whose unsettled
      adjustments are all deductions (or zero) owes at most nothing, and is
      reported REMITTED whenever its total is not 0, although units on it
      are still unsettled. */
  lemma UnpaidDeductionReportedRemitted(segs: seq<TimeSegment>, adjs: seq<Adjustment>, rate: Cents)
    requires forall i :: 0 <= i < |segs| && segs[i].status == Active ==> segs[i].settlementStatus == Remitted
    requires forall i :: 0 <= i < |adjs| && adjs[i].settlementStatus == Unremitted ==> adjs[i].amount <= 0
    requires LedgerAmounts(segs, adjs, rate).total != 0
    ensures LedgerAmounts(segs, adjs, rate).unremitted <= 0
    ensures Classify(LedgerAmounts(segs, adjs, rate)) == RemittedStatus
  {
    NothingUnpaidInSegments(segs, rate);
    DeductionsOweNothing(adjs);
  }

  /** A witness: one paid hour at 10.00 and an unsettled deduction of 2.00
      give a ledger of 10.00 paid, -2.00 owed, 8.00 total, reported
      REMITTED. */
  lemma UnpaidDeductionExample()
    ensures var seg := TimeSegment(0, 0, 3600, Active, Remitted, Some(0));
            var ded := Adjustment(0, -200, "quality", Deduction, Unremitted, None);
            var a := LedgerAmounts([seg], [ded], 1000);
            a == Amounts(1000, -200, 800) && Classify(a) == RemittedStatus
  {
    var seg := TimeSegment(0, 0, 3600, Active, Remitted, Some(0));
    var ded := Adjustment(0, -200, "quality", Deduction, Unremitted, None);
    assert [seg][..0] == [];
    assert [ded][..0] == [];
    assert ProratedCents(3600, 1000) == 1000;
    assert SegmentsIn([seg], 1000, Remitted) == 1000 && SegmentsIn([seg], 1000, Unremitted) == 0;
    assert AdjustmentsIn([ded], Remitted) == 0 && AdjustmentsIn([ded], Unremitted) == -200;
  }
}
