/** The settlement tables and their enumerations.

    Every monetary column has exactly two decimal places, so amounts are
    held as integer cents. Row ids are positions in the store's tables;
    task and worker ids are plain numbers. Creation timestamps are not
    modelled; segment start and end times are whole seconds. */
module Models {
  import opened Wrappers

  /** An amount with two decimal places, in cents. */
  type Cents = int

  /** Work status of a time segment: only ACTIVE segments are paid for. */
  datatype TimeSegmentStatus = Active | Removed | Disputed

  /** Settlement status of a segment or an adjustment: exactly two states. */
  datatype SettlementStatus = Unremitted | Remitted

  /** DEDUCTION is conventionally negative, BONUS positive, CORRECTION either. */
  datatype AdjustmentType = Deduction | Bonus | Correction

  datatype RemittanceStatus = Pending | Processing | Completed | Failed | Cancelled
  {
    /** The value the enumeration stores and reports. */
    function Value(): string
    {
      match this
      case Pending => "PENDING"
      case Processing => "PROCESSING"
      case Completed => "COMPLETED"
      case Failed => "FAILED"
      case Cancelled => "CANCELLED"
    }
  }

  /** A calendar date (proleptic Gregorian). */
  datatype Date = Date(year: int, month: int, day: int)

  /** One worker's logged effort against one task. `totalRemittedAmount` is
      the running total of what has already been paid for it. */
  datatype WorkLog = WorkLog(
    taskId: nat,
    workerId: nat,
    hourlyRate: Cents,
    totalRemittedAmount: Cents,
    remittanceId: Option<nat>)

  /** One interval of logged work inside a worklog. */
  datatype TimeSegment = TimeSegment(
    worklogId: nat,
    startTime: int,
    endTime: int,
    status: TimeSegmentStatus,
    settlementStatus: SettlementStatus,
    remittanceId: Option<nat>)

  /** A signed manual amount (bonus, deduction, correction) on a worklog. */
  datatype Adjustment = Adjustment(
    worklogId: nat,
    amount: Cents,
    reason: string,
    kind: AdjustmentType,
    settlementStatus: SettlementStatus,
    remittanceId: Option<nat>)

  /** One payout to one worker. The period columns hold the resolved period
      dates; processing time is a timestamp. */
  datatype Remittance = Remittance(
    workerId: nat,
    grossAmount: Cents,
    netAmount: Cents,
    status: RemittanceStatus,
    failureReason: Option<string>,
    periodStart: Option<Date>,
    periodEnd: Option<Date>,
    processedAt: Option<int>)

  /** A worklog row as created: nothing paid yet and no remittance link. */
  function NewWorkLog(taskId: nat, workerId: nat, hourlyRate: Cents): (wl: WorkLog)
    ensures wl.totalRemittedAmount == 0 && wl.remittanceId == None
    ensures wl.workerId == workerId && wl.hourlyRate == hourlyRate
  {
    WorkLog(taskId, workerId, hourlyRate, 0, None)
  }

  /** A time segment as logged: ACTIVE, UNREMITTED and not linked. */
  function NewTimeSegment(worklogId: nat, startTime: int, endTime: int): (seg: TimeSegment)
    ensures seg.status == Active && seg.settlementStatus == Unremitted
    ensures seg.remittanceId == None && seg.worklogId == worklogId
  {
    TimeSegment(worklogId, startTime, endTime, Active, Unremitted, None)
  }

  /** An adjustment as applied: UNREMITTED and not linked; its amount keeps
      its sign. */
  function NewAdjustment(worklogId: nat, amount: Cents, reason: string, kind: AdjustmentType): (adj: Adjustment)
    ensures adj.settlementStatus == Unremitted && adj.remittanceId == None
    ensures adj.amount == amount && adj.worklogId == worklogId
  {
    Adjustment(worklogId, amount, reason, kind, Unremitted, None)
  }

  /** A remittance row with its column defaults: PENDING, nothing paid. */
  function NewRemittance(workerId: nat): (r: Remittance)
    ensures r.status == Pending && r.grossAmount == 0 && r.netAmount == 0
    ensures r.failureReason == None && r.processedAt == None
  {
    Remittance(workerId, 0, 0, Pending, None, None, None, None)
  }
}
