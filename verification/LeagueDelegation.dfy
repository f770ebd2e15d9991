/** Delegated authority and when it holds (src/domain/league-delegation.ts, evaluateLeagueDelegation). */
module LeagueDelegation {
  import opened Base

  /** A Date object: a finite instant, or an invalid date. */
  datatype Date = At(time: Instant) | InvalidDate

  datatype ScopeKind = OrganizationScope | LeagueScope | AccountScope | TeamScope | SeasonScope | GameScope

  datatype Scope = Scope(
    kind: ScopeKind,
    organizationId: string,
    leagueId: Option<string>,
    delegationId: Option<string>,
    accountId: Option<string>,
    teamId: Option<string>,
    seasonId: Option<string>,
    gameId: Option<string>)

  datatype Target = Target(
    kind: ScopeKind,
    organizationId: string,
    leagueId: Option<string>,
    delegationId: Option<string>,
    accountId: Option<string>,
    teamIds: seq<string>,
    seasonId: Option<string>,
    gameId: Option<string>)

  datatype Actor = Actor(authenticated: bool, appUserId: string)

  datatype OrganizationStatus = ActiveOrganization | SuspendedOrganization | ArchivedOrganization

  datatype Organization = Organization(id: string, status: OrganizationStatus)

  datatype MembershipStatus = ActiveMember | SuspendedMember | RemovedMember

  datatype Membership = Membership(id: string, organizationId: string, appUserId: string, status: MembershipStatus)

  datatype GrantStatus = Active | Suspended | Revoked

  /** The dates that limit a grant, a delegation or an approval. */
  datatype Validity = Validity(validFrom: Date, expiresAt: Option<Date>, revokedAt: Option<Date>)

  datatype Delegation = Delegation(
    id: string,
    organizationId: string,
    accountId: string,
    status: GrantStatus,
    validity: Validity,
    approvedBy: string)

  datatype Grant = Grant(
    id: string,
    organizationId: string,
    membershipId: string,
    delegationId: Option<string>,
    accountId: Option<string>,
    capability: string,
    scope: Scope,
    status: GrantStatus,
    validity: Validity,
    approvedBy: Option<string>)

  datatype ApproverKind = AccountMembership | OrganizationMembership

  datatype Approval = Approval(
    id: string,
    grantId: string,
    capability: string,
    scope: Scope,
    approved: bool,
    validity: Validity,
    approvedByKind: ApproverKind,
    approvedById: string)

  datatype Evidence = Evidence(
    actor: Actor,
    organization: Organization,
    membership: Membership,
    delegation: Option<Delegation>,
    grant: Option<Grant>,
    approval: Option<Approval>)

  datatype DenialCode =
    | AuthenticationRequired
    | OrganizationInactive
    | OrganizationMembershipInactive
    | CapabilityUnknown
    | GrantRequired
    | GrantMismatch
    | GrantRevoked
    | GrantInactive
    | GrantExpired
    | DelegationRequired
    | DelegationMismatch
    | DelegationRevoked
    | DelegationInactive
    | DelegationExpired
    | ScopeNotAllowed
    | ScopeMismatch
    | ApprovalRequired
    | ApprovalInvalid
    | ApprovalExpired

  datatype Decision = Allowed(authorityReferenceIds: seq<string>) | Denied(code: DenialCode)

  // ----- capabilities -----

  datatype CapabilityPolicy = CapabilityPolicy(scopes: set<ScopeKind>, accountDelegated: bool, approvalRequired: bool)

  function PolicyOf(capability: string): Option<CapabilityPolicy> {
    match capability
    case "organization.view" | "organization.members.manage" | "organization.settings.manage" =>
      Some(CapabilityPolicy({OrganizationScope}, false, false))
    case "organization.ownership.transfer" => Some(CapabilityPolicy({OrganizationScope}, false, true))
    case "organization.rulesets.manage" | "fantasy.rules.activate" =>
      Some(CapabilityPolicy({OrganizationScope, LeagueScope}, false, true))
    case "league.settings.manage" => Some(CapabilityPolicy({LeagueScope}, false, false))
    case "fantasy.rules.manage" => Some(CapabilityPolicy({OrganizationScope, LeagueScope}, false, false))
    case "fantasy.league.manage" | "fantasy.team.manage" | "fantasy.roster.manage" | "fantasy.scoring.calculate" =>
      Some(CapabilityPolicy({AccountScope}, true, false))
    case "fantasy.league.activate" | "data.import.review" | "data.import.commit" =>
      Some(CapabilityPolicy({AccountScope}, true, true))
    case "team.view" => Some(CapabilityPolicy({TeamScope}, true, false))
    case "competition.settings.manage" | "shared_resources.manage" =>
      Some(CapabilityPolicy({TeamScope, SeasonScope}, true, false))
    case "report.minimum_field.view" => Some(CapabilityPolicy({TeamScope, SeasonScope, GameScope}, true, false))
    case "ruleset.activate" => Some(CapabilityPolicy({AccountScope, TeamScope, SeasonScope}, true, true))
    case "report.export" => Some(CapabilityPolicy({AccountScope, TeamScope, SeasonScope, GameScope}, true, true))
    case "game.correct" | "game.verify" => Some(CapabilityPolicy({GameScope}, true, true))
    case _ => None
  }

  // ----- dates -----

  predicate IsRevoked(status: GrantStatus, revokedAt: Option<Date>, now: Instant) {
    status == Revoked || RevokedBy(revokedAt, now)
  }

  predicate RevokedBy(revokedAt: Option<Date>, now: Instant) {
    revokedAt.Some? && (revokedAt.value.InvalidDate? || revokedAt.value.time <= now)
  }

  datatype WindowState = InForce | NotInForce | Expired

  function ActiveWindow(validFrom: Date, expiresAt: Option<Date>, now: Instant): WindowState {
    if validFrom.InvalidDate? || validFrom.time > now then NotInForce
    else if expiresAt.Some? && (expiresAt.value.InvalidDate? || expiresAt.value.time <= now) then Expired
    else InForce
  }

  // ----- scopes -----

  predicate Present(value: Option<string>) {
    value.Some? && value.value != ""
  }

  predicate ScopeWellFormed(scope: Scope) {
    && scope.organizationId != ""
    && match scope.kind
       case OrganizationScope =>
         scope.leagueId.None? && scope.delegationId.None? && scope.accountId.None? && scope.teamId.None? &&
         scope.seasonId.None? && scope.gameId.None?
       case LeagueScope =>
         Present(scope.leagueId) && scope.delegationId.None? && scope.accountId.None? && scope.teamId.None? &&
         scope.seasonId.None? && scope.gameId.None?
       case AccountScope => WithinAccount(scope) && scope.teamId.None? && scope.seasonId.None? && scope.gameId.None?
       case TeamScope => WithinAccount(scope) && Present(scope.teamId) && scope.seasonId.None? && scope.gameId.None?
       case SeasonScope => WithinAccount(scope) && scope.teamId.None? && Present(scope.seasonId) && scope.gameId.None?
       case GameScope => WithinAccount(scope) && scope.teamId.None? && scope.seasonId.None? && Present(scope.gameId)
  }

  predicate WithinAccount(scope: Scope) {
    Present(scope.delegationId) && Present(scope.accountId) && scope.leagueId.None?
  }

  predicate TargetWellFormed(target: Target) {
    && target.organizationId != ""
    && match target.kind
       case OrganizationScope =>
         target.leagueId.None? && target.delegationId.None? && target.accountId.None? && target.teamIds == [] &&
         target.seasonId.None? && target.gameId.None?
       case LeagueScope =>
         Present(target.leagueId) && target.delegationId.None? && target.accountId.None? && target.teamIds == [] &&
         target.seasonId.None? && target.gameId.None?
       case AccountScope =>
         TargetWithinAccount(target) && target.teamIds == [] && target.seasonId.None? && target.gameId.None?
       case TeamScope => TargetWithinAccount(target) && target.teamIds != [] && target.seasonId.None? &&
                         target.gameId.None?
       case SeasonScope => TargetWithinAccount(target) && Present(target.seasonId) && target.gameId.None?
       case GameScope => TargetWithinAccount(target) && Present(target.gameId)
  }

  predicate TargetWithinAccount(target: Target) {
    Present(target.delegationId) && Present(target.accountId) && target.leagueId.None?
  }

  predicate ScopeMatches(scope: Scope, target: Target) {
    && scope.organizationId == target.organizationId
    && match scope.kind
       case OrganizationScope => target.kind == OrganizationScope
       case LeagueScope => target.kind == LeagueScope && scope.leagueId == target.leagueId
       case AccountScope => SameAccount(scope, target)
       case TeamScope => SameAccount(scope, target) && scope.teamId.Some? && scope.teamId.value in target.teamIds
       case SeasonScope => SameAccount(scope, target) && scope.seasonId.Some? && scope.seasonId == target.seasonId
       case GameScope => SameAccount(scope, target) && scope.gameId.Some? && scope.gameId == target.gameId
  }

  predicate SameAccount(scope: Scope, target: Target) {
    && scope.delegationId.Some? && scope.delegationId == target.delegationId
    && scope.accountId.Some? && scope.accountId == target.accountId
  }

  function KindName(kind: ScopeKind): string {
    match kind
    case OrganizationScope => "ORGANIZATION"
    case LeagueScope => "LEAGUE"
    case AccountScope => "ACCOUNT"
    case TeamScope => "TEAM"
    case SeasonScope => "SEASON"
    case GameScope => "GAME"
  }

  function TextOf(value: Option<string>): string {
    match value
    case Some(text) => text
    case None => ""
  }

  function PartsOf(scope: Scope): seq<string> {
    [KindName(scope.kind), scope.organizationId, TextOf(scope.leagueId), TextOf(scope.delegationId),
     TextOf(scope.accountId), TextOf(scope.teamId), TextOf(scope.seasonId), TextOf(scope.gameId)]
  }

  function Join(parts: seq<string>): string {
    if parts == [] then ""
    else if |parts| == 1 then parts[0]
    else parts[0] + ":" + Join(parts[1..])
  }

  /** The parts of a scope, joined with colons. */
  function ScopeIdentity(scope: Scope): string {
    Join(PartsOf(scope))
  }

  // ----- the decision, stage by stage -----

  function CheckActor(evidence: Evidence, target: Target): Check<DenialCode> {
    var membership := evidence.membership;
    if !evidence.actor.authenticated || evidence.actor.appUserId == "" then Fail(AuthenticationRequired)
    else if !evidence.organization.status.ActiveOrganization? || evidence.organization.id != target.organizationId then
      Fail(OrganizationInactive)
    else
      Need(membership.id != "" && membership.status == ActiveMember &&
           membership.organizationId == evidence.organization.id && membership.appUserId == evidence.actor.appUserId,
           OrganizationMembershipInactive)
  }

  predicate GrantFits(grant: Grant, evidence: Evidence, capability: string) {
    && grant.id != ""
    && grant.organizationId == evidence.organization.id
    && grant.membershipId == evidence.membership.id
    && grant.capability == capability
  }

  function CheckGrantTime(grant: Grant, now: Instant): Check<DenialCode> {
    if IsRevoked(grant.status, grant.validity.revokedAt, now) then Fail(GrantRevoked)
    else if grant.status != Active then Fail(GrantInactive)
    else
      match ActiveWindow(grant.validity.validFrom, grant.validity.expiresAt, now)
      case NotInForce => Fail(GrantInactive)
      case Expired => Fail(GrantExpired)
      case InForce => Pass
  }

  predicate ScopeAllowed(grant: Grant, policy: CapabilityPolicy, target: Target) {
    TargetWellFormed(target) && ScopeWellFormed(grant.scope) && grant.scope.kind in policy.scopes
  }

  predicate DelegationFits(delegation: Delegation, grant: Grant, evidence: Evidence, target: Target) {
    && delegation.id != ""
    && delegation.organizationId == evidence.organization.id
    && grant.delegationId == Some(delegation.id)
    && target.delegationId == Some(delegation.id)
    && grant.accountId == Some(delegation.accountId)
    && target.accountId == Some(delegation.accountId)
    && delegation.approvedBy != ""
    && grant.approvedBy == Some(delegation.approvedBy)
  }

  function CheckDelegationTime(delegation: Delegation, now: Instant): Check<DenialCode> {
    if IsRevoked(delegation.status, delegation.validity.revokedAt, now) then Fail(DelegationRevoked)
    else if delegation.status != Active then Fail(DelegationInactive)
    else
      match ActiveWindow(delegation.validity.validFrom, delegation.validity.expiresAt, now)
      case NotInForce => Fail(DelegationInactive)
      case Expired => Fail(DelegationExpired)
      case InForce => Pass
  }

  function CheckDelegation(
    evidence: Evidence, grant: Grant, policy: CapabilityPolicy, target: Target, now: Instant
  ): Check<DenialCode>
  {
    if policy.accountDelegated then
      match evidence.delegation
      case None => Fail(DelegationRequired)
      case Some(delegation) =>
        if !DelegationFits(delegation, grant, evidence, target) then Fail(DelegationMismatch)
        else CheckDelegationTime(delegation, now)
    else
      Need(grant.delegationId.None? && grant.accountId.None? && target.accountId.None?, ScopeMismatch)
  }

  predicate ApprovalFits(
    approval: Approval, grant: Grant, evidence: Evidence, policy: CapabilityPolicy, capability: string
  )
  {
    && approval.id != ""
    && approval.approved
    && approval.grantId == grant.id
    && approval.capability == capability
    && approval.approvedByKind == (if policy.accountDelegated then AccountMembership else OrganizationMembership)
    && approval.approvedById != ""
    && (policy.accountDelegated ==> grant.approvedBy == Some(approval.approvedById))
    && (capability == "organization.ownership.transfer" ==> approval.approvedById != evidence.membership.id)
    && ScopeIdentity(approval.scope) == ScopeIdentity(grant.scope)
  }

  function CheckApproval(
    evidence: Evidence, grant: Grant, policy: CapabilityPolicy, capability: string, now: Instant
  ): Check<DenialCode>
  {
    if !policy.approvalRequired then Pass
    else
      match evidence.approval
      case None => Fail(ApprovalRequired)
      case Some(approval) =>
        if !ApprovalFits(approval, grant, evidence, policy, capability) ||
           RevokedBy(approval.validity.revokedAt, now) then
          Fail(ApprovalInvalid)
        else
          Need(ActiveWindow(approval.validity.validFrom, approval.validity.expiresAt, now) == InForce, ApprovalExpired)
  }

  function References(evidence: Evidence, grant: Grant, policy: CapabilityPolicy): seq<string> {
    [evidence.membership.id, grant.id] +
    (if policy.accountDelegated && evidence.delegation.Some? then [evidence.delegation.value.id] else []) +
    (if policy.approvalRequired && evidence.approval.Some? then [evidence.approval.value.id] else [])
  }

  /** The stages after the grant was found, in the code's order. */
  function CheckGrant(
    evidence: Evidence, grant: Grant, policy: CapabilityPolicy, capability: string, target: Target, now: Instant
  ): Check<DenialCode>
  {
    if !GrantFits(grant, evidence, capability) then Fail(GrantMismatch)
    else
      var granted := CheckGrantTime(grant, now);
      if granted.Fail? then granted
      else if !ScopeAllowed(grant, policy, target) then Fail(ScopeNotAllowed)
      else
        var delegated := CheckDelegation(evidence, grant, policy, target, now);
        if delegated.Fail? then delegated
        else if !ScopeMatches(grant.scope, target) then Fail(ScopeMismatch)
        else CheckApproval(evidence, grant, policy, capability, now)
  }

  function Evaluate(evidence: Evidence, capability: string, target: Target, now: Date): Decision {
    if now.InvalidDate? then Denied(AuthenticationRequired)
    else
      match CheckActor(evidence, target)
      case Fail(code) => Denied(code)
      case Pass =>
        match PolicyOf(capability)
        case None => Denied(CapabilityUnknown)
        case Some(policy) =>
          match evidence.grant
          case None => Denied(GrantRequired)
          case Some(grant) =>
            match CheckGrant(evidence, grant, policy, capability, target, now.time)
            case Fail(code) => Denied(code)
            case Pass => Allowed(References(evidence, grant, policy))
  }

  // ----- the lifetime of an authority -----

  /** Instants from `begin` on, up to but not including `end`. */
  datatype Lifetime = Lifetime(begin: Instant, end: Option<Instant>)

  predicate Covers(life: Lifetime, now: Instant) {
    life.begin <= now && (life.end.Some? ==> now < life.end.value)
  }

  function Earlier(left: Option<Instant>, right: Option<Instant>): Option<Instant> {
    if left.None? then right
    else if right.None? then left
    else Some(if left.value < right.value then left.value else right.value)
  }

  function Overlap(left: Lifetime, right: Lifetime): Lifetime {
    Lifetime(if left.begin < right.begin then right.begin else left.begin, Earlier(left.end, right.end))
  }

  predicate Dated(date: Option<Date>) {
    date.Some? ==> date.value.At?
  }

  function EndOf(date: Option<Date>): Option<Instant> {
    if date.Some? && date.value.At? then Some(date.value.time) else None
  }

  /** The lifetime that the dates allow: from the start to the earlier of expiry and revocation; none if a date is
      invalid. */
  function LifetimeOf(validity: Validity): Option<Lifetime> {
    if validity.validFrom.At? && Dated(validity.expiresAt) && Dated(validity.revokedAt)
    then Some(Lifetime(validity.validFrom.time, Earlier(EndOf(validity.expiresAt), EndOf(validity.revokedAt))))
    else None
  }

  function Both(left: Option<Lifetime>, right: Option<Lifetime>): Option<Lifetime> {
    if left.Some? && right.Some? then Some(Overlap(left.value, right.value)) else None
  }

  /** Everything the decision asks for that does not depend on the time. */
  predicate Entitled(evidence: Evidence, capability: string, target: Target) {
    && CheckActor(evidence, target).Pass?
    && PolicyOf(capability).Some?
    && evidence.grant.Some?
    && EntitledBy(evidence, evidence.grant.value, PolicyOf(capability).value, capability, target)
  }

  predicate EntitledBy(evidence: Evidence, grant: Grant, policy: CapabilityPolicy, capability: string, target: Target) {
    && GrantFits(grant, evidence, capability)
    && grant.status == Active
    && ScopeAllowed(grant, policy, target)
    && (if policy.accountDelegated
        then evidence.delegation.Some? && DelegationFits(evidence.delegation.value, grant, evidence, target) &&
             evidence.delegation.value.status == Active
        else grant.delegationId.None? && grant.accountId.None? && target.accountId.None?)
    && ScopeMatches(grant.scope, target)
    && (policy.approvalRequired ==>
          evidence.approval.Some? && ApprovalFits(evidence.approval.value, grant, evidence, policy, capability))
  }

  /** The latest start and the earliest end among the documents that the policy asks for. */
  function LifetimeBy(evidence: Evidence, grant: Grant, policy: CapabilityPolicy): Option<Lifetime> {
    var granted := LifetimeOf(grant.validity);
    var delegated :=
      if policy.accountDelegated && evidence.delegation.Some?
      then Both(granted, LifetimeOf(evidence.delegation.value.validity))
      else granted;
    if policy.approvalRequired && evidence.approval.Some?
    then Both(delegated, LifetimeOf(evidence.approval.value.validity))
    else delegated
  }

  predicate InLife(life: Option<Lifetime>, now: Instant) {
    life.Some? && Covers(life.value, now)
  }

  lemma DatesInForce(validity: Validity, now: Instant)
    ensures !RevokedBy(validity.revokedAt, now) && ActiveWindow(validity.validFrom, validity.expiresAt, now) == InForce
       <==> InLife(LifetimeOf(validity), now)
  {
  }

  lemma OverlapCovers(left: Option<Lifetime>, right: Option<Lifetime>, now: Instant)
    ensures InLife(Both(left, right), now) <==> InLife(left, now) && InLife(right, now)
  {
  }

  lemma GrantInLife(
    evidence: Evidence, grant: Grant, policy: CapabilityPolicy, capability: string, target: Target, now: Instant
  )
    ensures CheckGrant(evidence, grant, policy, capability, target, now).Pass? <==>
            EntitledBy(evidence, grant, policy, capability, target) && InLife(LifetimeBy(evidence, grant, policy), now)
  {
    var granted := LifetimeOf(grant.validity);
    DatesInForce(grant.validity, now);
    if evidence.delegation.Some? {
      DatesInForce(evidence.delegation.value.validity, now);
      OverlapCovers(granted, LifetimeOf(evidence.delegation.value.validity), now);
    }
    if evidence.approval.Some? {
      DatesInForce(evidence.approval.value.validity, now);
      OverlapCovers(granted, LifetimeOf(evidence.approval.value.validity), now);
      if evidence.delegation.Some? {
        OverlapCovers(Both(granted, LifetimeOf(evidence.delegation.value.validity)),
                      LifetimeOf(evidence.approval.value.validity), now);
      }
    }
  }

  predicate IsAllowed(evidence: Evidence, capability: string, target: Target, now: Instant) {
    Evaluate(evidence, capability, target, At(now)).Allowed?
  }

  /** The instants at which an authority is allowed: all of one half-open interval if its holder is entitled, none
      otherwise. */
  lemma AllowedForOneInterval(evidence: Evidence, capability: string, target: Target)
    ensures Entitled(evidence, capability, target) ==>
              forall now :: IsAllowed(evidence, capability, target, now) <==>
                            InLife(LifetimeBy(evidence, evidence.grant.value, PolicyOf(capability).value), now)
    ensures !Entitled(evidence, capability, target) ==> forall now :: !IsAllowed(evidence, capability, target, now)
  {
    forall now
      ensures IsAllowed(evidence, capability, target, now) <==>
              && Entitled(evidence, capability, target)
              && InLife(LifetimeBy(evidence, evidence.grant.value, PolicyOf(capability).value), now)
    {
      if PolicyOf(capability).Some? && evidence.grant.Some? {
        GrantInLife(evidence, evidence.grant.value, PolicyOf(capability).value, capability, target, now);
      }
    }
  }

  /** An authority that was allowed and is denied later never comes back, and it was allowed at every instant in
      between. */
  lemma LapsedStaysDenied(
    evidence: Evidence, capability: string, target: Target, first: Instant, now: Instant, later: Instant
  )
    requires first <= now <= later && IsAllowed(evidence, capability, target, first)
    ensures !IsAllowed(evidence, capability, target, now) ==> !IsAllowed(evidence, capability, target, later)
  {
    AllowedForOneInterval(evidence, capability, target);
  }
}
