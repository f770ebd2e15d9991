/** The error codes thrown by the fantasy modules. */
module Errors {

  datatype RulesCode =
    | InvalidModel
    | InvalidDigest
    | ModelNotScorable
    | AccountNotAuthorized
    | UnverifiedStatistics
    | StatisticInvalid
    | StatisticRegistryMismatch
    | StatisticUnavailable

  datatype DomainCode =
    | InvalidInput
    | AuthorizationRequired
    | AccountMismatch
    | ScopeMismatch
    | RulesMismatch
    | HistoryConflict
    | RosterConflict
    | PositionIneligible

  datatype TransactionCode =
    | InvalidCommand
    | AuthorizationRequired
    | AccountMismatch
    | LeagueMismatch
    | LeagueInactive
    | StaleRevision
    | IdempotencyConflict
    | PlayerUnavailable
    | OwnershipConflict
    | RosterConflict
    | InitialAssignmentClosed
    | LineupLocked
    | TradeAcceptanceRequired
    | TradeDeadlinePassed
    | ProcessingTimeInvalid
    | WaiverClaimUnavailable

  datatype ScoringCode =
    | InvalidInput
    | AuthorizationRequired
    | AccountMismatch
    | LeagueMismatch
    | RulesMismatch
    | RosterMismatch
    | PeriodInvalid
    | SourceConflict
    | ResultNotReady
    | RevisionConflict
    | MatchupInvalid
    | StandingsInvalid
    | UnsafeArithmetic

  /** An error together with the class that carries it: the code tells them apart with instanceof. */
  datatype Fault =
    | RulesFault(rules: RulesCode)
    | DomainFault(domain: DomainCode)
    | TransactionFault(transaction: TransactionCode)
    | ScoringFault(scoring: ScoringCode)
}
