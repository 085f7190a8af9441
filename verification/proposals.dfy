/** The advisory proposal and the checks it must pass before anyone sees it. */
module Proposals {
  import opened Domain

  datatype Disposition = Preserved | Moved | Shortened | Dropped | Added

  datatype Reason =
    LateDeparture | ActivityDelay | RouteDeviation | HoursChanged | PlaceClosed | ReservationAtRisk
    | TravelDelayed | UserEdit | DeadlineBudget | NoFeasiblePlan

  datatype ProposalSegment = ProposalSegment(
    id: Id,
    location: Location,
    timeZone: string,
    start: Option<int64>,
    end: Option<int64>,
    inbound: Option<RouteEstimate>,
    disposition: Disposition,
    reasons: seq<Reason>)
  {
    predicate ValidFor(activity: Activity, inboundRequired: bool) {
      && id == activity.id
      && activity.Valid()
      && location.Valid() && location == activity.location
      && timeZone != "" && timeZone == activity.timeZone
      && disposition != Shortened
      && if disposition == Dropped then start.None? && end.None? && inbound.None?
         else
           && start.Some? && end.Some? && start.value < end.value
           && (inboundRequired ==> inbound.Some?)
           && (inbound.Some? ==> inbound.value.Valid() && inbound.value.reachable)
    }
  }

  datatype PlanProposal = PlanProposal(
    proposalId: Id,
    sourceEpoch: uint64,
    sourcePlannerVersion: uint64,
    basePlanId: Id,
    sourceRevision: uint64,
    sourceMutation: uint64,
    prefix: seq<ProposalSegment>,
    suffix: seq<ProposalSegment>,
    createdAt: int64)
  {
    predicate ValidFor(activities: seq<Activity>) {
      && sourceEpoch != 0 && sourceRevision != 0 && sourceMutation != 0
      && |activities| <= 64 && |prefix| + |suffix| == |activities|
      && (forall k | 0 <= k < |activities| :: activities[k].Valid())
      && Distinct(ActivityIds(activities))
      && InSequence(activities, prefix + suffix, |prefix|, None)
      && Distinct(ProposalIds(prefix + suffix))
      && multiset(ProposalIds(prefix + suffix)) == multiset(ActivityIds(activities))
    }
  }

  function ProposalIds(segments: seq<ProposalSegment>): seq<Id> {
    seq(|segments|, k requires 0 <= k < |segments| => segments[k].id)
  }

  /** Each segment matches its activity, and scheduled segments do not overlap.
      The first `preserved` of them may carry no inbound route and must be kept
      or dropped. */
  predicate InSequence(activities: seq<Activity>, segments: seq<ProposalSegment>, preserved: nat, priorEnd: Option<int64>) {
    segments == [] ||
    var s := segments[0];
    var index := ActivityIndex(activities, s.id);
    && index.Some?
    && s.ValidFor(activities[index.value], preserved == 0)
    && (preserved > 0 ==> s.disposition == Preserved || s.disposition == Dropped)
    && (s.disposition != Dropped && priorEnd.Some? ==> priorEnd.value <= s.start.value)
    && InSequence(activities, segments[1..], if preserved == 0 then 0 else preserved - 1,
                  if s.disposition == Dropped then priorEnd else s.end)
  }

  datatype PlanQuality = CompletePlanQuality | BestSoFarQuality | NoNewProposal
  datatype RoutingQuality = Fresh | StaleCache | Unavailable

  datatype StoredProposal = StoredProposal(
    proposal: PlanProposal,
    reasons: seq<Reason>,
    searchDepth: uint32,
    planQuality: PlanQuality,
    routingQuality: RoutingQuality)
  {
    predicate ValidFor(activities: seq<Activity>) {
      proposal.ValidFor(activities) && searchDepth <= 64 && planQuality != NoNewProposal
    }
  }
}
