/** For which scopes an approval counts as given for the grant's own scope (src/domain/league-delegation.ts,
    scopeIdentity). */
module ApprovedScopes {
  import opened Base
  import opened LeagueDelegation

  /** No id in the scope holds a colon. */
  ghost predicate ColonFree(scope: Scope) {
    AllColonFree(PartsOf(scope))
  }

  ghost predicate AllColonFree(parts: seq<string>) {
    forall i :: 0 <= i < |parts| ==> ':' !in parts[i]
  }

  /** An absent id and an empty one look the same once joined. */
  function Normal(id: Option<string>): Option<string> {
    if id == Some("") then None else id
  }

  function NormalScope(scope: Scope): Scope {
    scope.(
      leagueId := Normal(scope.leagueId),
      delegationId := Normal(scope.delegationId),
      accountId := Normal(scope.accountId),
      teamId := Normal(scope.teamId),
      seasonId := Normal(scope.seasonId),
      gameId := Normal(scope.gameId))
  }

  /** The parts of a scope tell it, up to empty and absent ids. */
  lemma PartsTellScope(left: Scope, right: Scope)
    ensures PartsOf(left) == PartsOf(right) <==> NormalScope(left) == NormalScope(right)
  {
    var xs, ys := PartsOf(left), PartsOf(right);
    if xs == ys {
      assert xs[0] == ys[0] && xs[1] == ys[1] && xs[2] == ys[2] && xs[3] == ys[3];
      assert xs[4] == ys[4] && xs[5] == ys[5] && xs[6] == ys[6] && xs[7] == ys[7];
    }
  }

  // ----- counting colons -----

  function Colons(s: string): nat {
    if s == "" then 0 else (if s[0] == ':' then 1 else 0) + Colons(s[1..])
  }

  function ColonsIn(parts: seq<string>): nat {
    if parts == [] then 0 else Colons(parts[0]) + ColonsIn(parts[1..])
  }

  lemma {:induction false} ColonsAppend(a: string, b: string)
    ensures Colons(a + b) == Colons(a) + Colons(b)
  {
    if a == "" {
      assert a + b == b;
    } else {
      ColonsAppend(a[1..], b);
      assert (a + b)[0] == a[0] && (a + b)[1..] == a[1..] + b;
    }
  }

  lemma {:induction false} NoColons(s: string)
    ensures Colons(s) == 0 <==> ':' !in s
  {
    if s != "" {
      NoColons(s[1..]);
    }
  }

  lemma {:induction false} NoColonsIn(parts: seq<string>)
    ensures ColonsIn(parts) == 0 <==> AllColonFree(parts)
  {
    if parts != [] {
      var rest := parts[1..];
      NoColons(parts[0]);
      NoColonsIn(rest);
      assert forall i :: 0 <= i < |rest| ==> rest[i] == parts[i + 1];
      assert AllColonFree(parts) <==> ':' !in parts[0] && AllColonFree(rest) by {
        if ':' !in parts[0] && AllColonFree(rest) {
          assert forall i :: 0 < i < |parts| ==> parts[i] == rest[i - 1];
        }
      }
    }
  }

  lemma JoinStep(parts: seq<string>)
    requires |parts| > 1
    ensures Join(parts) == parts[0] + (":" + Join(parts[1..]))
  {
  }

  /** A joined text holds the colons of its parts, and one between any two of them. */
  lemma {:induction false} JoinColons(parts: seq<string>)
    requires parts != []
    ensures Colons(Join(parts)) == ColonsIn(parts) + |parts| - 1
  {
    if |parts| == 1 {
      assert parts[1..] == [];
    } else {
      JoinColons(parts[1..]);
      JoinStep(parts);
      ColonsAppend(parts[0], ":" + Join(parts[1..]));
      ColonsAppend(":", Join(parts[1..]));
      assert Colons(":") == 1;
    }
  }

  // ----- without colons the joined text tells the parts -----

  lemma SplitAtColon(a: string, s: string, b: string, t: string)
    requires ':' !in a && ':' !in b && a + ":" + s == b + ":" + t
    ensures a == b && s == t
  {
    var left, right := a + ":" + s, b + ":" + t;
    assert left[|a|] == ':' && right[|b|] == ':';
    assert forall i :: 0 <= i < |a| ==> left[i] == a[i];
    assert forall i :: 0 <= i < |b| ==> right[i] == b[i];
    assert |a| == |b|;
    assert a == left[..|a|] && b == right[..|b|];
    assert s == left[|a| + 1..] && t == right[|b| + 1..];
  }

  lemma {:induction false} JoinInjective(xs: seq<string>, ys: seq<string>)
    requires |xs| == |ys| && Join(xs) == Join(ys) && AllColonFree(xs) && AllColonFree(ys)
    ensures xs == ys
  {
    if |xs| > 1 {
      SplitAtColon(xs[0], Join(xs[1..]), ys[0], Join(ys[1..]));
      JoinInjective(xs[1..], ys[1..]);
      assert xs == [xs[0]] + xs[1..] && ys == [ys[0]] + ys[1..];
    }
  }

  /** If one of two scopes with one identity is free of colons, the other is too, and they agree. */
  lemma ColonFreeIdentity(scope: Scope, other: Scope)
    requires ColonFree(scope) && ScopeIdentity(other) == ScopeIdentity(scope)
    ensures NormalScope(other) == NormalScope(scope)
  {
    var xs, ys := PartsOf(scope), PartsOf(other);
    JoinColons(xs);
    JoinColons(ys);
    NoColonsIn(xs);
    NoColonsIn(ys);
    JoinInjective(xs, ys);
    PartsTellScope(scope, other);
  }

  // ----- with a colon it does not -----

  lemma Regroup(a: string, b: string, c: string, d: string, rest: string)
    requires a + (":" + b) == c + (":" + d)
    ensures a + (":" + (b + (":" + rest))) == c + (":" + (d + (":" + rest)))
  {
    assert a + (":" + (b + (":" + rest))) == (a + (":" + b)) + (":" + rest);
    assert c + (":" + (d + (":" + rest))) == (c + (":" + d)) + (":" + rest);
  }

  /** Cutting two neighbouring parts elsewhere leaves the joined text as it is. */
  lemma {:induction false} Recut(parts: seq<string>, j: nat, x: string, y: string)
    requires j + 1 < |parts| && x + (":" + y) == parts[j] + (":" + parts[j + 1])
    ensures Join(parts[j := x][j + 1 := y]) == Join(parts)
  {
    var recut := parts[j := x][j + 1 := y];
    JoinStep(parts);
    JoinStep(recut);
    if j > 0 {
      assert recut[1..] == parts[1..][j - 1 := x][j := y];
      Recut(parts[1..], j - 1, x, y);
    } else if |parts| == 2 {
      assert parts[1..] == [parts[1]] && recut[1..] == [y];
    } else {
      var rest := Join(parts[2..]);
      assert parts[1..][1..] == parts[2..] && recut[1..][1..] == parts[2..];
      JoinStep(parts[1..]);
      JoinStep(recut[1..]);
      Regroup(x, y, parts[0], parts[1], rest);
    }
  }

  /** The scope of a kind with given ids. */
  function ScopeOf(kind: ScopeKind, parts: seq<string>): Scope
    requires |parts| == 8
  {
    Scope(kind, parts[1], Some(parts[2]), Some(parts[3]), Some(parts[4]), Some(parts[5]), Some(parts[6]),
          Some(parts[7]))
  }

  lemma KindsAreColonFree(kind: ScopeKind)
    ensures ':' !in KindName(kind)
  {
  }

  lemma CutAtColon(s: string) returns (a: string, b: string)
    requires ':' in s
    ensures s == a + (":" + b)
  {
    var i :| 0 <= i < |s| && s[i] == ':';
    a, b := s[..i], s[i + 1..];
  }

  /** The piece of an id before its colon may as well belong to the id in front; the piece of an organization id behind
      its colon, to the league id. */
  lemma ElsewhereCut(parts: seq<string>, i: nat) returns (j: nat, x: string, y: string)
    requires |parts| == 8 && 1 <= i < 8 && ':' in parts[i]
    ensures 1 <= j < 7 && x + (":" + y) == parts[j] + (":" + parts[j + 1])
    ensures x != parts[j]
  {
    var a, b := CutAtColon(parts[i]);
    if i == 1 {
      j, x, y := 1, a, b + (":" + parts[2]);
      assert |x| < |parts[1]|;
      assert x + (":" + y) == (a + (":" + b)) + (":" + parts[2]);
    } else {
      j, x, y := i - 1, parts[i - 1] + (":" + a), b;
      assert |x| > |parts[j]|;
      assert x + (":" + y) == parts[j] + (":" + (a + (":" + b)));
    }
  }

  lemma ColonsShareIdentity(scope: Scope) returns (other: Scope)
    requires !ColonFree(scope)
    ensures ScopeIdentity(other) == ScopeIdentity(scope) && NormalScope(other) != NormalScope(scope)
  {
    var parts := PartsOf(scope);
    KindsAreColonFree(scope.kind);
    var i :| 0 <= i < 8 && ':' in parts[i];
    var j, x, y := ElsewhereCut(parts, i);
    var recut := parts[j := x][j + 1 := y];
    other := ScopeOf(scope.kind, recut);
    assert PartsOf(other) == recut;
    Recut(parts, j, x, y);
    assert recut[j] != parts[j];
    PartsTellScope(other, scope);
  }

  /** The joined identity of a scope is its own, up to empty and absent ids, if and only if none of its ids holds a
      colon. */
  lemma IdentityDecides(scope: Scope)
    ensures ColonFree(scope) <==>
            forall other :: ScopeIdentity(other) == ScopeIdentity(scope) ==> NormalScope(other) == NormalScope(scope)
  {
    if ColonFree(scope) {
      forall other | ScopeIdentity(other) == ScopeIdentity(scope) ensures NormalScope(other) == NormalScope(scope) {
        ColonFreeIdentity(scope, other);
      }
    } else {
      var other := ColonsShareIdentity(scope);
    }
  }

  // ----- the decision -----

  /** The same evidence with its approval given for another scope. */
  function ApprovedFor(evidence: Evidence, scope: Scope): Evidence
    requires evidence.approval.Some?
  {
    evidence.(approval := Some(evidence.approval.value.(scope := scope)))
  }

  predicate NeedsApproval(capability: string) {
    PolicyOf(capability).Some? && PolicyOf(capability).value.approvalRequired
  }

  lemma EntitledByIdentity(
    evidence: Evidence, grant: Grant, policy: CapabilityPolicy, capability: string, target: Target, scope: Scope
  )
    requires policy.approvalRequired && EntitledBy(evidence, grant, policy, capability, target)
    ensures EntitledBy(ApprovedFor(evidence, scope), grant, policy, capability, target) <==>
            ScopeIdentity(scope) == ScopeIdentity(grant.scope)
    ensures LifetimeBy(ApprovedFor(evidence, scope), grant, policy) == LifetimeBy(evidence, grant, policy)
    ensures NormalScope(grant.scope) == grant.scope
  {
  }

  /** An allowed decision stays allowed under exactly the approvals whose scope has the identity of the grant's. */
  lemma AllowedByIdentity(evidence: Evidence, capability: string, target: Target, now: Instant, scope: Scope)
    requires IsAllowed(evidence, capability, target, now) && NeedsApproval(capability)
    ensures evidence.grant.Some? && evidence.approval.Some?
    ensures IsAllowed(ApprovedFor(evidence, scope), capability, target, now) <==>
            ScopeIdentity(scope) == ScopeIdentity(evidence.grant.value.scope)
    ensures NormalScope(evidence.grant.value.scope) == evidence.grant.value.scope
  {
    AllowedForOneInterval(evidence, capability, target);
    var other := ApprovedFor(evidence, scope);
    AllowedForOneInterval(other, capability, target);
    assert CheckActor(other, target) == CheckActor(evidence, target);
    EntitledByIdentity(evidence, evidence.grant.value, PolicyOf(capability).value, capability, target, scope);
  }

  /** An allowed decision accepts approvals for no scope but the grant's own if and only if no id of the grant's scope
      holds a colon. */
  lemma ApprovalScopeDecides(evidence: Evidence, capability: string, target: Target, now: Instant)
    requires IsAllowed(evidence, capability, target, now) && NeedsApproval(capability)
    ensures evidence.grant.Some? && evidence.approval.Some?
    ensures
      var granted := evidence.grant.value.scope;
      ColonFree(granted) <==>
      forall scope :: IsAllowed(ApprovedFor(evidence, scope), capability, target, now) ==> NormalScope(scope) == granted
  {
    AllowedByIdentity(evidence, capability, target, now, evidence.approval.value.scope);
    var granted := evidence.grant.value.scope;
    if ColonFree(granted) {
      forall scope | IsAllowed(ApprovedFor(evidence, scope), capability, target, now)
        ensures NormalScope(scope) == granted
      {
        AllowedByIdentity(evidence, capability, target, now, scope);
        ColonFreeIdentity(granted, scope);
      }
    } else {
      var scope := ColonsShareIdentity(granted);
      AllowedByIdentity(evidence, capability, target, now, scope);
    }
  }

  /** Where no id of the grant's scope holds a colon, the approval of an allowed decision is for the grant's own
      scope. */
  lemma ApprovedForItsScope(evidence: Evidence, capability: string, target: Target, now: Instant)
    requires IsAllowed(evidence, capability, target, now) && NeedsApproval(capability)
    requires ColonFree(evidence.grant.value.scope)
    ensures NormalScope(evidence.approval.value.scope) == evidence.grant.value.scope
  {
    ApprovalScopeDecides(evidence, capability, target, now);
    assert ApprovedFor(evidence, evidence.approval.value.scope) == evidence;
  }

  // ----- the failing input -----

  function LeagueOnly(organizationId: string, leagueId: string): Scope {
    Scope(LeagueScope, organizationId, Some(leagueId), None, None, None, None, None)
  }

  const AmbiguousTarget := Target(LeagueScope, "o", Some("l:m"), None, None, [], None, None)

  /** A grant for a league whose id holds a colon, with its own approval. */
  function PlainEvidence(): Evidence {
    var always := Validity(At(0), None, None);
    Evidence(
      Actor(true, "user"),
      Organization("o", ActiveOrganization),
      Membership("member", "o", "user", ActiveMember),
      None,
      Some(Grant("grant", "o", "member", None, None, "fantasy.rules.activate", LeagueOnly("o", "l:m"), Active, always,
                 None)),
      Some(Approval("approval", "grant", "fantasy.rules.activate", LeagueOnly("o", "l:m"), true, always,
                    OrganizationMembership, "approver")))
  }

  lemma PlainIsAllowed()
    ensures IsAllowed(PlainEvidence(), "fantasy.rules.activate", AmbiguousTarget, 0)
    ensures NeedsApproval("fantasy.rules.activate")
  {
  }

  lemma SameIdentity()
    ensures ScopeIdentity(LeagueOnly("o:l", "m")) == ScopeIdentity(LeagueOnly("o", "l:m"))
  {
    var parts := PartsOf(LeagueOnly("o", "l:m"));
    assert parts[1] + (":" + parts[2]) == "o:l" + (":" + "m");
    Recut(parts, 1, "o:l", "m");
    assert PartsOf(LeagueOnly("o:l", "m")) == parts[1 := "o:l"][2 := "m"];
  }

  /** With an approval for another league of another organization the decision is allowed all the same. */
  lemma AmbiguousApproval()
    ensures
      var evidence := ApprovedFor(PlainEvidence(), LeagueOnly("o:l", "m"));
      && IsAllowed(evidence, "fantasy.rules.activate", AmbiguousTarget, 0)
      && NormalScope(evidence.approval.value.scope) != evidence.grant.value.scope
  {
    PlainIsAllowed();
    SameIdentity();
    AllowedByIdentity(PlainEvidence(), "fantasy.rules.activate", AmbiguousTarget, 0, LeagueOnly("o:l", "m"));
  }
}
