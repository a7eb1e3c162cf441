/** Optional values and the service's error results. */
module Results {

  datatype Option<+T> = None | Some(value: T)

  /** The error codes the modelled services raise. */
  datatype ErrorCode =
    | InvalidIncidentTransition
    | UnsafeTargetCount
    | RunbookPreconditionFailed
    | RetryPolicyDenied
    | ExternalFailure(detail: nat)
    | ApprovalNotFound
    | ApprovalAlreadyDecided
    | ApprovalRoleInsufficient
    | HighRiskActionBlocked
    | RemediationAttemptLimit
    | ActionApprovalRequired
    | ApprovedActionAlreadyClaimed
    | DuplicateRow
    | RollbackStateUnavailable
    | ScaleBoundExceeded
    | StaleActionTarget
    | ProposalNotFound
    | IncidentNotFound
    | QuantityInvalid
    | ValuesInvalid
    | TargetMissing
    | RecommendationStale
    | RateLimited
    | RateLimitUnavailable
    | EventCursorInvalid
    | AgentClusterDenied
    | ClusterNotFound
    | ReportTooLarge
    | ReportStale
    | ReportConflict
    | ReportOutOfOrder
    | ReportRateLimited
    | TargetDenied
    | KubernetesActionFailed
    | QuarantineConflict
    | IncidentNotActionable
    | PolicyDenied
    | QuarantineNotFound
    | QuarantineBaselineFailed
    | QuarantineVerificationFailed
    | ReleaseVerificationFailed
    | NoUsageValues

  /** What a call returns, or the error it raises. Calls written with `:-` hand an error on to their caller. */
  datatype Result<+T> = Ok(value: T) | Err(error: ErrorCode) {
    predicate IsFailure() {
      Err?
    }

    function PropagateFailure<U>(): Result<U>
      requires Err?
    {
      Err(error)
    }

    function Extract(): T
      requires Ok?
    {
      value
    }
  }
}
