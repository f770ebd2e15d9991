/** What a waiver batch guarantees as a whole. */
module WaiverTheorems {
  import opened Base
  import opened Ordering
  import opened FantasyDomain
  import opened FantasyTransactions
  import opened OwnershipInvariant
  import opened TransactionSteps
  import opened Waivers

  // ----- winners -----

  ghost predicate Wins(b: Batch, claim: Claim, c: Command, ctx: Context)
    requires c.action.ProcessWaivers?
  {
    Attempt(b.entries, b.rosters, claim, ctx, c.authority, c.action.processingAt).Ok?
  }

  /** The claims awarded, in the order they were heard. */
  ghost function Winners(due: seq<Claim>, b: Batch, s: State, c: Command, ctx: Context): seq<Claim>
    requires c.action.ProcessWaivers?
  {
    if due == [] then []
    else
      var init, last := due[..|due| - 1], due[|due| - 1];
      Winners(init, b, s, c, ctx) + if Wins(HearAll(init, b, s, c, ctx), last, c, ctx) then [last] else []
  }

  lemma KeepsCompose(
    e0: seq<Entry>, r0: seq<Snapshot>, e1: seq<Entry>, r1: seq<Snapshot>, e2: seq<Entry>, r2: seq<Snapshot>,
    ctx: Context
  )
    requires Keeps(e0, r0, e1, r1, ctx) && Keeps(e1, r1, e2, r2, ctx)
    ensures Keeps(e0, r0, e2, r2, ctx)
  {
  }

  /** Awards keep the two views of ownership in agreement, and every roster legal. */
  lemma {:induction false} BatchKeeps(due: seq<Claim>, b: Batch, s: State, c: Command, ctx: Context)
    requires c.action.ProcessWaivers? && Mirrors(b.entries, b.rosters)
    ensures
      var end := HearAll(due, b, s, c, ctx);
      Keeps(b.entries, b.rosters, end.entries, end.rosters, ctx)
  {
    if due != [] {
      var init, last := due[..|due| - 1], due[|due| - 1];
      var mid := HearAll(init, b, s, c, ctx);
      BatchKeeps(init, b, s, c, ctx);
      if Wins(mid, last, c, ctx) {
        var award := Attempt(mid.entries, mid.rosters, last, ctx, c.authority, c.action.processingAt).value;
        AwardKeeps(mid.entries, mid.rosters, last, ctx, c.authority, c.action.processingAt);
        KeepsCompose(b.entries, b.rosters, mid.entries, mid.rosters, award.entries, award.rosters, ctx);
      }
    }
  }

  /** Every winner so far still owns what it won, on a roster dated at the batch's instant. */
  ghost predicate Settled(winners: seq<Claim>, b: Batch, at: Instant) {
    && (forall w :: w in winners ==>
          && RosterOf(b.rosters, w.teamId).Some?
          && RosterOf(b.rosters, w.teamId).value.effectiveAt == at
          && OwnedBy(b.entries, w.playerId, w.teamId))
    && (forall i, j :: 0 <= i < j < |winners| ==>
          winners[i].teamId != winners[j].teamId && winners[i].playerId != winners[j].playerId)
  }

  lemma SettledStep(winners: seq<Claim>, mid: Batch, last: Claim, end: Batch, at: Instant)
    requires Settled(winners, mid, at) && AwardFacts(mid.entries, mid.rosters, last, at, end.entries, end.rosters)
    ensures Settled(winners + [last], end, at)
  {
  }

  /** One win for each team and for each player: a second win would need a roster older than the batch's own instant. */
  lemma {:induction false} WinnersSettled(due: seq<Claim>, b: Batch, s: State, c: Command, ctx: Context)
    requires c.action.ProcessWaivers? && Mirrors(b.entries, b.rosters)
    ensures Settled(Winners(due, b, s, c, ctx), HearAll(due, b, s, c, ctx), c.action.processingAt)
  {
    if due != [] {
      var init, last := due[..|due| - 1], due[|due| - 1];
      var mid := HearAll(init, b, s, c, ctx);
      BatchKeeps(init, b, s, c, ctx);
      WinnersSettled(init, b, s, c, ctx);
      if Wins(mid, last, c, ctx) {
        AwardShown(mid.entries, mid.rosters, last, ctx, c.authority, c.action.processingAt);
        SettledStep(Winners(init, b, s, c, ctx), mid, last, HearAll(due, b, s, c, ctx), c.action.processingAt);
      }
    }
  }

  /** A winner's roster was older than the batch when the batch began. */
  lemma {:induction false} WinnersWereOlder(due: seq<Claim>, b: Batch, s: State, c: Command, ctx: Context)
    requires c.action.ProcessWaivers? && Mirrors(b.entries, b.rosters)
    ensures forall w :: w in Winners(due, b, s, c, ctx) && RosterOf(b.rosters, w.teamId).Some? ==>
              RosterOf(b.rosters, w.teamId).value.effectiveAt < c.action.processingAt
  {
    if due != [] {
      var init, last := due[..|due| - 1], due[|due| - 1];
      var mid := HearAll(init, b, s, c, ctx);
      BatchKeeps(init, b, s, c, ctx);
      WinnersWereOlder(init, b, s, c, ctx);
      if Wins(mid, last, c, ctx) {
        AwardShown(mid.entries, mid.rosters, last, ctx, c.authority, c.action.processingAt);
      }
    }
  }

  lemma {:induction false} WinnersAreDue(due: seq<Claim>, b: Batch, s: State, c: Command, ctx: Context)
    requires c.action.ProcessWaivers?
    ensures forall w :: w in Winners(due, b, s, c, ctx) ==> w in due
  {
    if due != [] {
      var init := due[..|due| - 1];
      WinnersAreDue(init, b, s, c, ctx);
      assert forall x :: x in init ==> x in due;
    }
  }

  lemma {:induction false} WinnersSorted(
    leq: (Claim, Claim) -> bool, due: seq<Claim>, b: Batch, s: State, c: Command, ctx: Context
  )
    requires c.action.ProcessWaivers? && Sorted(leq, due)
    ensures Sorted(leq, Winners(due, b, s, c, ctx))
  {
    if due != [] {
      var init, last := due[..|due| - 1], due[|due| - 1];
      WinnersSorted(leq, init, b, s, c, ctx);
      WinnersAreDue(init, b, s, c, ctx);
      forall w | w in init ensures leq(w, last) {
        var i :| 0 <= i < |init| && init[i] == w;
        assert leq(due[i], due[|due| - 1]);
      }
      var before := Winners(init, b, s, c, ctx);
      forall i | 0 <= i < |before| ensures leq(before[i], last) {
        assert before[i] in before;
      }
    }
  }

  // ----- the priority list afterwards -----

  ghost function WinnerTeams(winners: seq<Claim>): seq<Id> {
    seq(|winners|, i requires 0 <= i < |winners| => winners[i].teamId)
  }

  ghost function Lost(winners: seq<Claim>): Id -> bool {
    (team: Id) => team !in WinnerTeams(winners)
  }

  ghost function Won(winners: seq<Claim>): Id -> bool {
    (team: Id) => team in WinnerTeams(winners)
  }

  lemma {:induction false} FilterTwice<T>(p: T -> bool, q: T -> bool, r: T -> bool, s: seq<T>)
    requires forall x :: x in s ==> (r(x) <==> p(x) && q(x))
    ensures Filter(p, Filter(q, s)) == Filter(r, s)
  {
    if s != [] {
      FilterTwice(p, q, r, s[1..]);
      FilterAppend(p, if q(s[0]) then [s[0]] else [], Filter(q, s[1..]));
      assert s[0] in s;
    }
  }

  lemma {:induction false} FilterAll<T>(p: T -> bool, s: seq<T>)
    requires forall x :: x in s ==> p(x)
    ensures Filter(p, s) == s
  {
    if s != [] {
      FilterAll(p, s[1..]);
    }
  }

  lemma MoveWinner(priority: seq<Id>, winners: seq<Claim>, last: Claim)
    requires last.teamId !in WinnerTeams(winners)
    ensures MoveToBack(Filter(Lost(winners), priority) + WinnerTeams(winners), last.teamId)
         == Filter(Lost(winners + [last]), priority) + WinnerTeams(winners + [last])
  {
    var team := last.teamId;
    assert WinnerTeams(winners + [last]) == WinnerTeams(winners) + [team];
    FilterAppend(Other(team), Filter(Lost(winners), priority), WinnerTeams(winners));
    FilterTwice(Other(team), Lost(winners), Lost(winners + [last]), priority);
    FilterAll(Other(team), WinnerTeams(winners));
  }

  /** The next winner's team has not won before. */
  lemma NewWinner(due: seq<Claim>, b: Batch, s: State, c: Command, ctx: Context)
    requires c.action.ProcessWaivers? && Mirrors(b.entries, b.rosters) && due != []
    requires Wins(HearAll(due[..|due| - 1], b, s, c, ctx), due[|due| - 1], c, ctx)
    ensures due[|due| - 1].teamId !in WinnerTeams(Winners(due[..|due| - 1], b, s, c, ctx))
  {
    var init, last := due[..|due| - 1], due[|due| - 1];
    var mid := HearAll(init, b, s, c, ctx);
    var before := Winners(init, b, s, c, ctx);
    BatchKeeps(init, b, s, c, ctx);
    WinnersSettled(init, b, s, c, ctx);
    AwardShown(mid.entries, mid.rosters, last, ctx, c.authority, c.action.processingAt);
    forall i | 0 <= i < |before| ensures before[i].teamId != last.teamId {
      assert before[i] in before;
    }
  }

  lemma {:induction false} PriorityRotates(due: seq<Claim>, b: Batch, s: State, c: Command, ctx: Context)
    requires c.action.ProcessWaivers? && Mirrors(b.entries, b.rosters)
    ensures
      var winners := Winners(due, b, s, c, ctx);
      HearAll(due, b, s, c, ctx).priority == Filter(Lost(winners), b.priority) + WinnerTeams(winners)
  {
    if due == [] {
      FilterAll(Lost([]), b.priority);
    } else {
      var init, last := due[..|due| - 1], due[|due| - 1];
      var mid, before := HearAll(init, b, s, c, ctx), Winners(init, b, s, c, ctx);
      PriorityRotates(init, b, s, c, ctx);
      if Wins(mid, last, c, ctx) {
        NewWinner(due, b, s, c, ctx);
        MoveWinner(b.priority, before, last);
        assert Winners(due, b, s, c, ctx) == before + [last];
        assert Hear(mid, last, s, c, ctx).priority == MoveToBack(mid.priority, last.teamId);
      } else {
        assert Winners(due, b, s, c, ctx) == before;
      }
    }
  }

  ghost function RankOrder(priority: seq<Id>): (Id, Id) -> bool {
    (left: Id, right: Id) => RankOf(priority, left) <= RankOf(priority, right)
  }

  lemma {:induction false} RankIsIndex(priority: seq<Id>, i: nat)
    requires Distinct(priority) && i < |priority|
    ensures RankOf(priority, priority[i]) == i
  {
    if i < |priority| - 1 {
      RankIsIndex(priority[..|priority| - 1], i);
    }
  }

  lemma RanksSorted(priority: seq<Id>)
    requires Distinct(priority)
    ensures Sorted(RankOrder(priority), priority) && Strict(RankOrder(priority), priority)
  {
    forall i | 0 <= i < |priority| ensures RankOf(priority, priority[i]) == i {
      RankIsIndex(priority, i);
    }
  }

  /** Winners heard in priority order are the winners as they stood in the priority list. */
  lemma WinnersInOldOrder(priority: seq<Id>, winners: seq<Claim>)
    requires Distinct(priority) && Sorted(ClaimOrder(priority), winners)
    requires Distinct(WinnerTeams(winners)) && forall team :: team in WinnerTeams(winners) ==> team in priority
    ensures WinnerTeams(winners) == Filter(Won(winners), priority)
  {
    var teams, listed := WinnerTeams(winners), Filter(Won(winners), priority);
    RanksSorted(priority);
    FilterSorted(RankOrder(priority), Won(winners), priority);
    FilterMembers(Won(winners), priority);
    FilterDistinct(Won(winners), priority);
    SameIdMultiset(teams, listed);
    forall i, j | 0 <= i < j < |teams| ensures RankOrder(priority)(teams[i], teams[j]) {
      assert ClaimOrder(priority)(winners[i], winners[j]);
    }
    SortedUnique(RankOrder(priority), teams, listed);
  }
}
