/** The persistence layer as an in-memory store: one table per record kind,
    a row's id being its position in its table. Queries, sessions and
    transactions are not modelled; the methods that use the store say what
    it holds afterwards. */
module Database {
  import opened Wrappers
  import opened Models

  /** A remittance link is either absent or names a persisted remittance. */
  predicate LinkIn(link: Option<nat>, count: nat)
  {
    link.None? || link.value < count
  }

  /** Every remittance link in the three tables names one of the first
      `count` remittances. */
  predicate LinksIn(segs: seq<TimeSegment>, adjs: seq<Adjustment>, wls: seq<WorkLog>, count: nat)
  {
    && (forall j :: 0 <= j < |segs| ==> LinkIn(segs[j].remittanceId, count))
    && (forall j :: 0 <= j < |adjs| ==> LinkIn(adjs[j].remittanceId, count))
    && (forall l :: 0 <= l < |wls| ==> LinkIn(wls[l].remittanceId, count))
  }

  class Store {
    var worklogs: seq<WorkLog>
    var segments: seq<TimeSegment>
    var adjustments: seq<Adjustment>
    var remittances: seq<Remittance>

    /** The foreign keys on remittance links hold. (Links from segments and
        adjustments to their worklog are deliberately not required: the
        batcher copes with a missing worklog.) */
    ghost predicate Valid()
      reads this
    {
      LinksIn(segments, adjustments, worklogs, |remittances|)
    }

    constructor ()
      ensures Valid()
      ensures worklogs == [] && segments == [] && adjustments == [] && remittances == []
    {
      worklogs, segments, adjustments, remittances := [], [], [], [];
    }
  }
}
