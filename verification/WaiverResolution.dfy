/** Every due claim is resolved once, one win to a team and to a player, whatever the order the claims are stored in. */
module WaiverResolution {
  import opened Base
  import opened Errors
  import opened Ordering
  import opened FantasyTransactions
  import opened OwnershipInvariant
  import opened Waivers
  import opened WaiverTheorems

  ghost function ClaimIds(claims: seq<Claim>): seq<Id> {
    seq(|claims|, i requires 0 <= i < |claims| => claims[i].id)
  }

  ghost predicate UniqueClaims(claims: seq<Claim>) {
    Distinct(ClaimIds(claims))
  }

  ghost function BatchWinners(s: State, c: Command, ctx: Context): seq<Claim>
    requires c.action.ProcessWaivers?
  {
    Winners(DueClaims(s, c.action.processingAt), Opening(s), s, c, ctx)
  }

  // ----- the due claims -----

  lemma UniqueMembers(claims: seq<Claim>)
    requires UniqueClaims(claims)
    ensures Distinct(claims)
    ensures forall x, y :: x in claims && y in claims && x.id == y.id ==> x == y
  {
    assert forall i :: 0 <= i < |claims| ==> ClaimIds(claims)[i] == claims[i].id;
  }

  lemma DueMembers(s: State, at: Instant)
    ensures forall claim :: claim in DueClaims(s, at) <==> claim in s.claims && DueAt(at)(claim)
    ensures Sorted(ClaimOrder(s.priority), DueClaims(s, at))
  {
    FilterMembers(DueAt(at), s.claims);
    SortContents(ClaimOrder(s.priority), Filter(DueAt(at), s.claims));
    SortSorted(ClaimOrder(s.priority), Filter(DueAt(at), s.claims));
  }

  lemma DueUnique(s: State, at: Instant)
    requires UniqueClaims(s.claims)
    ensures UniqueClaims(DueClaims(s, at))
  {
    var due := DueClaims(s, at);
    UniqueMembers(s.claims);
    FilterDistinct(DueAt(at), s.claims);
    SortContents(ClaimOrder(s.priority), Filter(DueAt(at), s.claims));
    DistinctPermutation(Filter(DueAt(at), s.claims), due);
    DueMembers(s, at);
    forall i, j | 0 <= i < j < |due| ensures ClaimIds(due)[i] != ClaimIds(due)[j] {
      assert due[i] in due && due[j] in due;
    }
  }

  // ----- every due claim is resolved exactly once -----

  /** How a resolved claim stands: awarded, or rejected with a code; nothing else about it changes. */
  ghost predicate Verdict(resolved: Claim, claim: Claim, won: bool, at: Instant) {
    if won then resolved == AppliedVersion(claim, at)
    else resolved.resultCode.Some? && resolved == RejectedVersion(claim, at, resolved.resultCode.value)
  }

  ghost predicate ResolvedSoFar(due: seq<Claim>, resolved: map<Id, Claim>, winners: seq<Claim>, at: Instant) {
    && (forall id :: id in resolved <==> id in ClaimIds(due))
    && (forall claim :: claim in due ==>
          claim.id in resolved && Verdict(resolved[claim.id], claim, claim in winners, at))
  }

  lemma ResolvedNext(
    init: seq<Claim>, last: Claim, before: Batch, winners: seq<Claim>, attempt: Result<Award, Fault>, s: State,
    c: Command, ctx: Context
  )
    requires c.action.ProcessWaivers? && UniqueClaims(init + [last])
    requires ResolvedSoFar(init, before.resolved, winners, c.action.processingAt)
    requires forall w :: w in winners ==> w in init
    ensures ResolvedSoFar(init + [last], Enter(before, last, attempt, s, c, ctx).resolved,
                          winners + if attempt.Ok? then [last] else [], c.action.processingAt)
  {
    var due := init + [last];
    var after := Enter(before, last, attempt, s, c, ctx).resolved;
    assert ClaimIds(due) == ClaimIds(init) + [last.id];
    DistinctSnoc(ClaimIds(init), last.id);
    forall claim | claim in init ensures claim.id != last.id && after[claim.id] == before.resolved[claim.id] {
      var i :| 0 <= i < |init| && init[i] == claim;
      assert ClaimIds(init)[i] == claim.id;
    }
    assert last !in init;
  }

  lemma {:induction false} AllResolved(due: seq<Claim>, s: State, c: Command, ctx: Context)
    requires c.action.ProcessWaivers? && UniqueClaims(due)
    ensures ResolvedSoFar(due, HearAll(due, Opening(s), s, c, ctx).resolved, Winners(due, Opening(s), s, c, ctx),
                          c.action.processingAt)
  {
    if due != [] {
      var init, last := due[..|due| - 1], due[|due| - 1];
      assert due == init + [last];
      assert ClaimIds(due) == ClaimIds(init) + [last.id];
      DistinctSnoc(ClaimIds(init), last.id);
      AllResolved(init, s, c, ctx);
      WinnersAreDue(init, Opening(s), s, c, ctx);
      var mid := HearAll(init, Opening(s), s, c, ctx);
      ResolvedNext(init, last, mid, Winners(init, Opening(s), s, c, ctx),
                   Attempt(mid.entries, mid.rosters, last, ctx, c.authority, c.action.processingAt), s, c, ctx);
    }
  }

  /** A batch resolves each due claim once and leaves every other claim as it was. */
  lemma BatchResolvesOnce(s: State, c: Command, ctx: Context)
    requires c.action.ProcessWaivers? && UniqueClaims(s.claims) && ProcessBatch(s, c, ctx).Ok?
    ensures
      var m := ProcessBatch(s, c, ctx).value;
      var at := c.action.processingAt;
      && |m.claims| == |s.claims|
      && (forall i :: 0 <= i < |s.claims| ==>
            if DueAt(at)(s.claims[i])
            then Verdict(m.claims[i], s.claims[i], s.claims[i] in BatchWinners(s, c, ctx), at)
            else m.claims[i] == s.claims[i])
  {
    var at := c.action.processingAt;
    var due := DueClaims(s, at);
    DueUnique(s, at);
    DueMembers(s, at);
    AllResolved(due, s, c, ctx);
    UniqueMembers(s.claims);
    forall i | 0 <= i < |s.claims| && !DueAt(at)(s.claims[i]) ensures s.claims[i].id !in ClaimIds(due) {
      forall k | 0 <= k < |due| ensures ClaimIds(due)[k] != s.claims[i].id {
        assert due[k] in due;
      }
    }
  }

  /** In one batch two different winning claims differ in team and in player. */
  lemma BatchExclusive(s: State, c: Command, ctx: Context, i: nat, j: nat)
    requires c.action.ProcessWaivers? && UniqueClaims(s.claims) && Mirrors(s.entries, s.rosters)
    requires ProcessBatch(s, c, ctx).Ok? && i < j < |s.claims|
    requires DueAt(c.action.processingAt)(s.claims[i]) && DueAt(c.action.processingAt)(s.claims[j])
    requires
      var m := ProcessBatch(s, c, ctx).value;
      |m.claims| == |s.claims| && m.claims[i].status == AppliedClaim && m.claims[j].status == AppliedClaim
    ensures s.claims[i].teamId != s.claims[j].teamId && s.claims[i].playerId != s.claims[j].playerId
  {
    var winners := BatchWinners(s, c, ctx);
    BatchResolvesOnce(s, c, ctx);
    WinnersSettled(DueClaims(s, c.action.processingAt), Opening(s), s, c, ctx);
    UniqueMembers(s.claims);
    assert s.claims[i] in winners && s.claims[j] in winners && s.claims[i] != s.claims[j];
    var p :| 0 <= p < |winners| && winners[p] == s.claims[i];
    var q :| 0 <= q < |winners| && winners[q] == s.claims[j];
  }

  // ----- the priority list is partitioned stably -----

  lemma {:induction false} PartitionContents(p: Id -> bool, q: Id -> bool, s: seq<Id>)
    requires forall x :: p(x) <==> !q(x)
    ensures multiset(Filter(p, s) + Filter(q, s)) == multiset(s)
  {
    if s != [] {
      PartitionContents(p, q, s[1..]);
      assert s == [s[0]] + s[1..];
    }
  }

  /** After a batch the priority list is the losing teams in their old order, then the winning teams in their old
      order. */
  lemma BatchPartitionsPriority(s: State, c: Command, ctx: Context)
    requires c.action.ProcessWaivers? && ProcessBatch(s, c, ctx).Ok? && Mirrors(s.entries, s.rosters)
    requires Distinct(s.priority)
    requires forall claim :: claim in s.claims && DueAt(c.action.processingAt)(claim) ==> claim.teamId in s.priority
    ensures
      var m := ProcessBatch(s, c, ctx).value;
      var winners := BatchWinners(s, c, ctx);
      && m.priority == Filter(Lost(winners), s.priority) + Filter(Won(winners), s.priority)
      && multiset(m.priority) == multiset(s.priority)
  {
    var due := DueClaims(s, c.action.processingAt);
    var winners := BatchWinners(s, c, ctx);
    DueMembers(s, c.action.processingAt);
    WinnersAreDue(due, Opening(s), s, c, ctx);
    WinnersSorted(ClaimOrder(s.priority), due, Opening(s), s, c, ctx);
    WinnersSettled(due, Opening(s), s, c, ctx);
    assert Distinct(WinnerTeams(winners));
    forall team | team in WinnerTeams(winners) ensures team in s.priority {
      var i :| 0 <= i < |winners| && winners[i].teamId == team;
      assert winners[i] in winners;
    }
    WinnersInOldOrder(s.priority, winners);
    PriorityRotates(due, Opening(s), s, c, ctx);
    PartitionContents(Lost(winners), Won(winners), s.priority);
  }

  // ----- the stored order of the claims does not matter -----

  lemma EntryIgnoresClaims(
    b: Batch, claim: Claim, attempt: Result<Award, Fault>, s: State, t: State, c: Command, ctx: Context
  )
    requires c.action.ProcessWaivers? && s.revision == t.revision
    ensures Enter(b, claim, attempt, s, c, ctx) == Enter(b, claim, attempt, t, c, ctx)
  {
  }

  lemma {:induction false} HearingIgnoresClaims(due: seq<Claim>, b: Batch, s: State, t: State, c: Command, ctx: Context)
    requires c.action.ProcessWaivers? && s.revision == t.revision
    ensures HearAll(due, b, s, c, ctx) == HearAll(due, b, t, c, ctx)
  {
    if due != [] {
      var init, last := due[..|due| - 1], due[|due| - 1];
      HearingIgnoresClaims(init, b, s, t, c, ctx);
      var mid := HearAll(init, b, s, c, ctx);
      var attempt := Attempt(mid.entries, mid.rosters, last, ctx, c.authority, c.action.processingAt);
      EntryIgnoresClaims(mid, last, attempt, s, t, c, ctx);
    }
  }

  lemma ClaimsDoNotTie(priority: seq<Id>, claims: seq<Claim>)
    requires forall x, y :: x in claims && y in claims && x.id == y.id ==> x == y
    ensures TotalOrder(ClaimOrder(priority)) && Strict(ClaimOrder(priority), claims)
  {
  }

  /** The outcome of a batch depends on which claims are stored, not on where. */
  lemma BatchIgnoresStoredOrder(s: State, c: Command, ctx: Context, claims: seq<Claim>)
    requires c.action.ProcessWaivers? && UniqueClaims(s.claims) && multiset(claims) == multiset(s.claims)
    ensures BatchOf(s.(claims := claims), c, ctx) == BatchOf(s, c, ctx)
  {
    var at := c.action.processingAt;
    var t := s.(claims := claims);
    FilterPermutation(DueAt(at), s.claims, claims);
    UniqueMembers(s.claims);
    FilterMembers(DueAt(at), s.claims);
    ClaimsDoNotTie(s.priority, Filter(DueAt(at), s.claims));
    SortPermutation(ClaimOrder(s.priority), Filter(DueAt(at), s.claims), Filter(DueAt(at), claims));
    HearingIgnoresClaims(DueClaims(s, at), Opening(s), s, t, c, ctx);
  }

  // ----- rejected claims leave no trace -----

  ghost predicate SameHoldings(left: Batch, right: Batch) {
    && left.entries == right.entries
    && left.rosters == right.rosters
    && left.priority == right.priority
    && left.snapshotIds == right.snapshotIds
  }

  lemma SameHearing(left: Batch, right: Batch, claim: Claim, s: State, t: State, c: Command, ctx: Context)
    requires c.action.ProcessWaivers? && SameHoldings(left, right)
    ensures SameHoldings(Hear(left, claim, t, c, ctx), Hear(right, claim, s, c, ctx))
    ensures !Wins(right, claim, c, ctx) ==> SameHoldings(left, Hear(right, claim, s, c, ctx))
  {
  }

  lemma HearAppend(init: seq<Claim>, last: Claim, b: Batch, s: State, c: Command, ctx: Context)
    requires c.action.ProcessWaivers?
    ensures HearAll(init + [last], b, s, c, ctx) == Hear(HearAll(init, b, s, c, ctx), last, s, c, ctx)
    ensures Winners(init + [last], b, s, c, ctx) ==
            Winners(init, b, s, c, ctx) + if Wins(HearAll(init, b, s, c, ctx), last, c, ctx) then [last] else []
  {
  }

  lemma HearOrSkip(
    kept: seq<Claim>, init: seq<Claim>, last: Claim, keep: Claim -> bool, b: Batch, s: State, t: State, c: Command,
    ctx: Context
  )
    requires c.action.ProcessWaivers? && SameHoldings(HearAll(kept, b, t, c, ctx), HearAll(init, b, s, c, ctx))
    requires !keep(last) ==> !Wins(HearAll(init, b, s, c, ctx), last, c, ctx)
    ensures SameHoldings(HearAll(kept + if keep(last) then [last] else [], b, t, c, ctx),
                         HearAll(init + [last], b, s, c, ctx))
  {
    SameHearing(HearAll(kept, b, t, c, ctx), HearAll(init, b, s, c, ctx), last, s, t, c, ctx);
    HearAppend(init, last, b, s, c, ctx);
    if keep(last) {
      HearAppend(kept, last, b, t, c, ctx);
    } else {
      assert kept + [] == kept;
    }
  }

  lemma {:induction false} LosersLeaveNoTrace(
    due: seq<Claim>, keep: Claim -> bool, b: Batch, s: State, t: State, c: Command, ctx: Context
  )
    requires c.action.ProcessWaivers?
    requires forall claim :: claim in due && !keep(claim) ==> claim !in Winners(due, b, s, c, ctx)
    ensures SameHoldings(HearAll(Filter(keep, due), b, t, c, ctx), HearAll(due, b, s, c, ctx))
  {
    if due != [] {
      var init, last := due[..|due| - 1], due[|due| - 1];
      assert due == init + [last] && last in due;
      HearAppend(init, last, b, s, c, ctx);
      LosersLeaveNoTrace(init, keep, b, s, t, c, ctx);
      FilterAppend(keep, init, [last]);
      HearOrSkip(Filter(keep, init), init, last, keep, b, s, t, c, ctx);
    }
  }

  lemma {:induction false} FiltersCommute<T>(p: T -> bool, q: T -> bool, s: seq<T>)
    ensures Filter(p, Filter(q, s)) == Filter(q, Filter(p, s))
  {
    if s != [] {
      FiltersCommute(p, q, s[1..]);
      FilterAppend(p, if q(s[0]) then [s[0]] else [], Filter(q, s[1..]));
      FilterAppend(q, if p(s[0]) then [s[0]] else [], Filter(p, s[1..]));
    }
  }

  /** Deleting rejected claims beforehand changes no entry, no roster and no place in the priority list. */
  lemma RejectedClaimsDoNotMatter(s: State, c: Command, ctx: Context, keep: Claim -> bool)
    requires c.action.ProcessWaivers? && UniqueClaims(s.claims)
    requires forall claim :: claim in s.claims && DueAt(c.action.processingAt)(claim) && !keep(claim) ==>
               claim !in BatchWinners(s, c, ctx)
    ensures SameHoldings(BatchOf(s.(claims := Filter(keep, s.claims)), c, ctx), BatchOf(s, c, ctx))
  {
    var at := c.action.processingAt;
    var t := s.(claims := Filter(keep, s.claims));
    UniqueMembers(s.claims);
    FilterMembers(DueAt(at), s.claims);
    ClaimsDoNotTie(s.priority, Filter(DueAt(at), s.claims));
    FiltersCommute(DueAt(at), keep, s.claims);
    SortFilter(ClaimOrder(s.priority), keep, Filter(DueAt(at), s.claims));
    DueMembers(s, at);
    LosersLeaveNoTrace(DueClaims(s, at), keep, Opening(s), s, t, c, ctx);
  }
}
