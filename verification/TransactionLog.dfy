/** The transaction log: what it records over whole runs, and what resending a command does. */
module TransactionLog {
  import opened Base
  import opened Errors
  import opened FantasyDomain
  import opened FantasyTransactions
  import opened TransactionEngine
  import opened TransactionRuns

  // ----- mutations never report an idempotency conflict -----

  predicate Conflicts(fault: Fault) {
    fault == TransactionFault(IdempotencyConflict)
  }

  lemma SnapshotsDoNotConflict(
    id: Id, at: Instant, ctx: Context, team: Team, entries: seq<Entry>, previous: Snapshot, slots: seq<Slot>,
    authority: Authority
  )
    ensures
      var roster := SuccessorRoster(id, at, ctx, team, entries, previous, slots, authority);
      roster.Err? ==> !Conflicts(roster.error)
  {
    CheckSlotsFault(slots, FactsFor(ctx.league.accountId, ctx.league.id, team.id, ctx.league, ctx.model, entries));
  }

  lemma {:induction false} CheckSlotsFault(slots: seq<Slot>, facts: RosterFacts)
    ensures CheckSlots(slots, facts).Err? ==> CheckSlots(slots, facts).error.DomainFault?
  {
    if slots != [] {
      CheckSlotsFault(slots[..|slots| - 1], facts);
    }
  }

  lemma SingleMutationsDoNotConflict(s: State, c: Command, ctx: Context)
    requires !c.action.Trade?
    ensures Mutate(s, c, ctx).Err? ==> !Conflicts(Mutate(s, c, ctx).error)
  {
    forall id, at, team, entries, previous, slots
      ensures
        var roster := SuccessorRoster(id, at, ctx, team, entries, previous, slots, c.authority);
        roster.Err? ==> !Conflicts(roster.error)
    {
      SnapshotsDoNotConflict(id, at, ctx, team, entries, previous, slots, c.authority);
    }
  }

  lemma TermsDoNotConflict(s: State, c: Command, ctx: Context)
    requires c.action.Trade?
    ensures AgreeTerms(s, c, ctx).Err? ==> !Conflicts(AgreeTerms(s, c, ctx).error)
  {
  }

  lemma ExecutionsDoNotConflict(s: State, c: Command, ctx: Context, terms: Terms)
    requires c.action.Trade?
    ensures ExecuteTrade(s, c, ctx, terms).Err? ==> !Conflicts(ExecuteTrade(s, c, ctx, terms).error)
  {
    forall id, at, team, entries, previous, slots
      ensures
        var roster := SuccessorRoster(id, at, ctx, team, entries, previous, slots, c.authority);
        roster.Err? ==> !Conflicts(roster.error)
    {
      SnapshotsDoNotConflict(id, at, ctx, team, entries, previous, slots, c.authority);
    }
  }

  lemma TradesDoNotConflict(s: State, c: Command, ctx: Context)
    requires c.action.Trade?
    ensures TradePlayers(s, c, ctx).Err? ==> !Conflicts(TradePlayers(s, c, ctx).error)
  {
    TermsDoNotConflict(s, c, ctx);
    if AgreeTerms(s, c, ctx).Ok? {
      ExecutionsDoNotConflict(s, c, ctx, AgreeTerms(s, c, ctx).value);
    }
  }

  lemma GatesDoNotConflict(s: State, c: Command, ctx: Context)
    ensures Gate(s, c, ctx).Fail? ==> Gate(s, c, ctx).error != IdempotencyConflict
  {
  }

  lemma MutationsDoNotConflict(s: State, c: Command, ctx: Context)
    ensures Mutate(s, c, ctx).Err? ==> !Conflicts(Mutate(s, c, ctx).error)
  {
    if c.action.Trade? {
      TradesDoNotConflict(s, c, ctx);
    } else {
      SingleMutationsDoNotConflict(s, c, ctx);
    }
  }

  /** Only the lookup of an operation id already in the log can deny a command with an idempotency conflict. */
  lemma FreshDenialsAreNotConflicts(s: State, c: Command, ctx: Context)
    ensures Gate(s, c, ctx).Fail? ==> Gate(s, c, ctx).error != IdempotencyConflict
    ensures Commit(s, c, ctx).Err? ==> DenialCode(Commit(s, c, ctx).error) != IdempotencyConflict
  {
    GatesDoNotConflict(s, c, ctx);
    MutationsDoNotConflict(s, c, ctx);
  }

  lemma RosterMovesAreNotDenials(s: State, c: Command, ctx: Context)
    requires c.action.AddPlayer? || c.action.DropPlayer? || c.action.LineupChange?
    ensures Mutate(s, c, ctx).Ok? ==> Mutate(s, c, ctx).value.status == Applied
  {
  }

  lemma TradesAreNotDenials(s: State, c: Command, ctx: Context)
    requires c.action.Trade?
    ensures TradePlayers(s, c, ctx).Ok? ==> TradePlayers(s, c, ctx).value.status == Applied
  {
  }

  lemma MutationsAreNotDenials(s: State, c: Command, ctx: Context)
    ensures Mutate(s, c, ctx).Ok? ==> Mutate(s, c, ctx).value.status != Denied
  {
    match c.action {
      case AddPlayer(_, _, _, _, _) => RosterMovesAreNotDenials(s, c, ctx);
      case DropPlayer(_, _, _) => RosterMovesAreNotDenials(s, c, ctx);
      case LineupChange(_, _, _, _) => RosterMovesAreNotDenials(s, c, ctx);
      case Trade(_, _, _, _, _, _, _, _, _, _) => TradesAreNotDenials(s, c, ctx);
      case SubmitClaim(_, _, _, _, _, _, _) =>
      case CancelClaim(_) =>
      case ProcessWaivers(_) =>
    }
  }

  // ----- the log -----

  ghost function OperationIds(transactions: seq<Record>): seq<Id> {
    seq(|transactions|, i requires 0 <= i < |transactions| => transactions[i].operationId)
  }

  ghost function AcceptedCount(transactions: seq<Record>): nat {
    if transactions == [] then 0
    else
      AcceptedCount(transactions[..|transactions| - 1]) +
      if transactions[|transactions| - 1].status == Denied then 0 else 1
  }

  ghost function LastRevision(transactions: seq<Record>): nat {
    if transactions == [] then 0 else transactions[|transactions| - 1].afterRevision
  }

  /** A record starts at the revision where its predecessor ended and counts one up unless it is a denial. */
  ghost predicate ChainedAt(transactions: seq<Record>, i: nat)
    requires i < |transactions|
  {
    var r := transactions[i];
    && r.beforeRevision == LastRevision(transactions[..i])
    && r.afterRevision == r.beforeRevision + (if r.status == Denied then 0 else 1)
    && (r.status == Denied <==> r.resultCode.Some?)
    && r.operationId == r.requestDigest.operationId
  }

  ghost predicate Chained(transactions: seq<Record>) {
    forall i :: 0 <= i < |transactions| ==> ChainedAt(transactions, i)
  }

  ghost predicate Evidenced(transactions: seq<Record>, audits: seq<Audit>) {
    forall r :: r in transactions ==> exists a :: a in audits && a.operationId == r.operationId && AuditMatches(a, r)
  }

  predicate AuditMatches(a: Audit, r: Record) {
    && a.acceptedAt == r.submittedAt
    && a.result == r.status
    && a.reasonCode == r.resultCode
    && a.beforeRevision == r.beforeRevision
    && a.afterRevision == r.afterRevision
  }

  ghost predicate LogSound(s: State) {
    && Distinct(OperationIds(s.transactions))
    && Chained(s.transactions)
    && s.revision == LastRevision(s.transactions) == AcceptedCount(s.transactions)
    && Evidenced(s.transactions, s.audits)
  }

  /** The log only grows at its end. */
  ghost predicate Grows(s: State, t: State) {
    && s.transactions <= t.transactions
    && s.audits <= t.audits
    && s.revision <= t.revision
  }

  lemma {:induction false} RecordAppended(transactions: seq<Record>, r: Record, id: Id)
    ensures RecordOf(transactions + [r], id) ==
            if RecordOf(transactions, id).Some? then RecordOf(transactions, id)
            else if r.operationId == id then Some(r) else None
  {
    if transactions != [] {
      assert (transactions + [r])[1..] == transactions[1..] + [r];
      RecordAppended(transactions[1..], r, id);
    }
  }

  lemma RecordsKept(before: seq<Record>, after: seq<Record>, id: Id)
    requires before <= after && RecordOf(before, id).Some?
    ensures RecordOf(after, id) == RecordOf(before, id)
  {
  }

  lemma ChainExtended(transactions: seq<Record>, r: Record)
    requires Distinct(OperationIds(transactions)) && Chained(transactions)
    requires RecordOf(transactions, r.operationId).None?
    requires r.beforeRevision == LastRevision(transactions)
    requires r.afterRevision == r.beforeRevision + (if r.status == Denied then 0 else 1)
    requires r.status == Denied <==> r.resultCode.Some?
    requires r.operationId == r.requestDigest.operationId
    ensures Distinct(OperationIds(transactions + [r])) && Chained(transactions + [r])
    ensures LastRevision(transactions + [r]) == r.afterRevision
    ensures AcceptedCount(transactions + [r]) == AcceptedCount(transactions) + if r.status == Denied then 0 else 1
  {
    var longer := transactions + [r];
    assert longer[..|transactions|] == transactions;
    assert OperationIds(longer) == OperationIds(transactions) + [r.operationId];
    forall i | 0 <= i < |transactions| ensures OperationIds(transactions)[i] != r.operationId {
      assert transactions[i] in transactions;
    }
    DistinctSnoc(OperationIds(transactions), r.operationId);
    forall i | 0 <= i < |transactions| ensures ChainedAt(longer, i) {
      assert longer[..i] == transactions[..i];
      assert ChainedAt(transactions, i);
    }
    assert ChainedAt(longer, |transactions|);
  }

  lemma EvidenceExtended(transactions: seq<Record>, audits: seq<Audit>, r: Record, a: Audit, more: seq<Audit>)
    requires Evidenced(transactions, audits) && a.operationId == r.operationId && AuditMatches(a, r)
    ensures Evidenced(transactions + [r], audits + [a] + more)
    ensures Evidenced(transactions, audits + [a] + more)
  {
  }

  lemma Logged(s: State, c: Command, t: State, r: Record, a: Audit, more: seq<Audit>)
    requires LogSound(s) && RecordOf(s.transactions, c.operationId).None?
    requires r.operationId == a.operationId == c.operationId && AuditMatches(a, r) && r.requestDigest == c
    requires r.beforeRevision == s.revision && r.afterRevision == s.revision + (if r.status == Denied then 0 else 1)
    requires r.status == Denied <==> r.resultCode.Some?
    requires t.transactions == s.transactions + [r] && t.audits == s.audits + [a] + more &&
             t.revision == r.afterRevision
    ensures LogSound(t) && Grows(s, t)
  {
    ChainExtended(s.transactions, r);
    EvidenceExtended(s.transactions, s.audits, r, a, more);
  }

  lemma ConflictLogged(s: State, c: Command)
    requires LogSound(s)
    ensures LogSound(Deny(s, c, IdempotencyConflict).state) && Grows(s, Deny(s, c, IdempotencyConflict).state)
  {
  }

  lemma DenialLogged(s: State, c: Command, code: TransactionCode)
    requires LogSound(s) && RecordOf(s.transactions, c.operationId).None? && code != IdempotencyConflict
    ensures LogSound(Deny(s, c, code).state) && Grows(s, Deny(s, c, code).state)
    ensures RecordOf(Deny(s, c, code).state.transactions, c.operationId) == Some(Deny(s, c, code).record)
  {
    var o := Deny(s, c, code);
    assert o.state.audits == s.audits + [o.audit] + [];
    Logged(s, c, o.state, o.record, o.audit, []);
    RecordAppended(s.transactions, o.record, c.operationId);
  }

  lemma AcceptanceLogged(s: State, c: Command, m: Mutation)
    requires LogSound(s) && RecordOf(s.transactions, c.operationId).None? && m.status != Denied
    ensures LogSound(Accept(s, c, m).state) && Grows(s, Accept(s, c, m).state)
    ensures RecordOf(Accept(s, c, m).state.transactions, c.operationId) == Some(Accept(s, c, m).record)
  {
    var o := Accept(s, c, m);
    Logged(s, c, o.state, o.record, o.audit, m.audits);
    RecordAppended(s.transactions, o.record, c.operationId);
  }

  /** The record is there, so its audit is: a resent command cannot meet the missing-evidence error. */
  lemma ResendAnswered(s: State, c: Command, ctx: Context)
    requires LogSound(s) && RecordOf(s.transactions, c.operationId).Some?
    requires RecordOf(s.transactions, c.operationId).value.requestDigest == c
    ensures Apply(s, c, ctx).Ok?
    ensures
      var o := Apply(s, c, ctx).value;
      o.state == s && o.duplicate && Some(o.record) == RecordOf(s.transactions, c.operationId)
  {
  }

  lemma CommitIsNoDenial(s: State, c: Command, ctx: Context)
    ensures Commit(s, c, ctx).Ok? ==> Commit(s, c, ctx).value.status != Denied
  {
    MutationsAreNotDenials(s, c, ctx);
  }

  /** A new operation id is always logged, whatever the verdict on its command. */
  lemma NewCommandLogged(s: State, c: Command, ctx: Context)
    requires LogSound(s) && RecordOf(s.transactions, c.operationId).None?
    ensures LogSound(ApplyNew(s, c, ctx).state) && Grows(s, ApplyNew(s, c, ctx).state)
    ensures RecordOf(ApplyNew(s, c, ctx).state.transactions, c.operationId) == Some(ApplyNew(s, c, ctx).record)
    ensures ApplyNew(s, c, ctx).record.requestDigest == c
  {
    FreshDenialsAreNotConflicts(s, c, ctx);
    CommitIsNoDenial(s, c, ctx);
    match Gate(s, c, ctx)
    case Fail(code) => DenialLogged(s, c, code);
    case Pass =>
      match Commit(s, c, ctx)
      case Err(fault) => DenialLogged(s, c, DenialCode(fault));
      case Ok(m) => AcceptanceLogged(s, c, m);
  }

  lemma CommandLogged(s: State, c: Command, ctx: Context)
    requires LogSound(s)
    ensures Apply(s, c, ctx).Ok? && After(s, c, ctx) == Apply(s, c, ctx).value.state
    ensures LogSound(After(s, c, ctx)) && Grows(s, After(s, c, ctx))
  {
    if RecordOf(s.transactions, c.operationId).None? {
      NewCommandLogged(s, c, ctx);
    } else if RecordOf(s.transactions, c.operationId).value.requestDigest == c {
      ResendAnswered(s, c, ctx);
    } else {
      ConflictLogged(s, c);
    }
  }

  // ----- whole runs -----

  lemma GrowsOn(s: State, t: State, u: State)
    requires Grows(s, t) && Grows(t, u)
    ensures Grows(s, u)
  {
  }

  lemma NextLogged(states: seq<State>, commands: seq<Command>, ctx: Context, i: nat)
    requires Steps(states, commands, ctx) && i < |commands| && LogSound(states[i])
    ensures LogSound(states[i + 1]) && Grows(states[i], states[i + 1])
  {
    assert Stepped(states, commands, i, ctx);
    CommandLogged(states[i], commands[i], ctx);
  }

  lemma {:induction false} RunSound(states: seq<State>, commands: seq<Command>, ctx: Context, i: nat, j: nat)
    requires Steps(states, commands, ctx) && i <= j < |states| && LogSound(states[i])
    ensures LogSound(states[j])
    decreases j
  {
    if i < j {
      RunSound(states, commands, ctx, i, j - 1);
      NextLogged(states, commands, ctx, j - 1);
    }
  }

  lemma {:induction false} RunGrows(states: seq<State>, commands: seq<Command>, ctx: Context, i: nat, j: nat)
    requires Steps(states, commands, ctx) && i <= j < |states| && LogSound(states[i])
    ensures Grows(states[i], states[j])
    decreases j
  {
    if i < j {
      RunGrows(states, commands, ctx, i, j - 1);
      RunSound(states, commands, ctx, i, j - 1);
      NextGrows(states, commands, ctx, j - 1);
      GrowsOn(states[i], states[j - 1], states[j]);
    }
  }

  lemma NextGrows(states: seq<State>, commands: seq<Command>, ctx: Context, i: nat)
    requires Steps(states, commands, ctx) && i < |commands| && LogSound(states[i])
    ensures Grows(states[i], states[i + 1])
  {
    NextLogged(states, commands, ctx, i);
  }

  lemma CreatedLogSound(s: State, ctx: Context)
    requires Created(s, ctx)
    ensures LogSound(s)
  {
  }

  /** In every state of every run the log is sound. */
  lemma LogIntegrity(states: seq<State>, commands: seq<Command>, ctx: Context, n: nat)
    requires IsRun(states, commands, ctx) && n < |states|
    ensures LogSound(states[n])
  {
    CreatedLogSound(states[0], ctx);
    RunSound(states, commands, ctx, 0, n);
  }

  /** In no state of any run can a command raise the missing-evidence error. */
  lemma EvidenceIsNeverMissing(states: seq<State>, commands: seq<Command>, ctx: Context, n: nat, c: Command)
    requires IsRun(states, commands, ctx) && n < |states|
    ensures Apply(states[n], c, ctx).Ok?
  {
    LogIntegrity(states, commands, ctx, n);
    CommandLogged(states[n], c, ctx);
  }

  /** The revision counts accepted commands: it grows by one exactly when a command is neither denied nor a
      repetition. */
  lemma OnlyAcceptanceMoves(s: State, c: Command, ctx: Context)
    requires Apply(s, c, ctx).Ok?
    ensures
      var o := Apply(s, c, ctx).value;
      && (o.state.revision == s.revision + 1 <==> o.record.status != Denied && !o.duplicate)
      && (o.record.status == Denied || o.duplicate ==>
            o.state == s.(transactions := o.state.transactions, audits := o.state.audits))
      && (o.state.transactions == s.transactions <==> RecordOf(s.transactions, c.operationId).Some?)
  {
    FreshDenialsAreNotConflicts(s, c, ctx);
    CommitIsNoDenial(s, c, ctx);
  }

  /** What the log says about an operation once it is recorded, it says for the rest of the run. */
  lemma StillRecorded(states: seq<State>, commands: seq<Command>, ctx: Context, i: nat, j: nat, id: Id)
    requires IsRun(states, commands, ctx) && i <= j < |states| && RecordOf(states[i].transactions, id).Some?
    ensures RecordOf(states[j].transactions, id) == RecordOf(states[i].transactions, id)
  {
    LogIntegrity(states, commands, ctx, i);
    RunGrows(states, commands, ctx, i, j);
    RecordsKept(states[i].transactions, states[j].transactions, id);
  }

  /** A command under a new operation id is recorded at once, as itself. */
  lemma FirstRecorded(states: seq<State>, commands: seq<Command>, ctx: Context, i: nat)
    requires IsRun(states, commands, ctx) && i < |commands|
    requires RecordOf(states[i].transactions, commands[i].operationId).None?
    ensures RecordOf(states[i + 1].transactions, commands[i].operationId).Some?
    ensures RecordOf(states[i + 1].transactions, commands[i].operationId).value.requestDigest == commands[i]
  {
    LogIntegrity(states, commands, ctx, i);
    assert Stepped(states, commands, i, ctx);
    NewCommandLogged(states[i], commands[i], ctx);
  }

  /** A recorded command sent again, any number of commands later, returns its first record and changes nothing. */
  lemma ResendIsIdempotent(states: seq<State>, commands: seq<Command>, ctx: Context, i: nat, j: nat)
    requires IsRun(states, commands, ctx) && i < |commands| && i < j < |states|
    requires RecordOf(states[i].transactions, commands[i].operationId).None?
    ensures Apply(states[j], commands[i], ctx).Ok?
    ensures
      var answer := Apply(states[j], commands[i], ctx).value;
      && answer.state == states[j]
      && answer.duplicate
      && Some(answer.record) == RecordOf(states[i + 1].transactions, commands[i].operationId)
  {
    FirstRecorded(states, commands, ctx, i);
    StillRecorded(states, commands, ctx, i + 1, j, commands[i].operationId);
    LogIntegrity(states, commands, ctx, j);
    ResendAnswered(states[j], commands[i], ctx);
  }

  /** In a run, repeating a recorded command leaves the state as it is. */
  lemma RepetitionChangesNothing(states: seq<State>, commands: seq<Command>, ctx: Context, i: nat, j: nat)
    requires IsRun(states, commands, ctx) && i < j < |commands| && commands[j] == commands[i]
    requires RecordOf(states[i].transactions, commands[i].operationId).None?
    ensures states[j + 1] == states[j]
  {
    ResendIsIdempotent(states, commands, ctx, i, j);
    assert Stepped(states, commands, j, ctx);
  }

  /** Another command under a recorded operation id is refused at every later time and only leaves an audit. */
  lemma ReusedIdOnlyAudited(states: seq<State>, commands: seq<Command>, ctx: Context, i: nat, j: nat)
    requires IsRun(states, commands, ctx) && i < j < |commands|
    requires RecordOf(states[i].transactions, commands[i].operationId).None?
    requires commands[j] != commands[i] && commands[j].operationId == commands[i].operationId
    ensures |states[j + 1].audits| == |states[j].audits| + 1 && states[j].audits <= states[j + 1].audits
    ensures states[j + 1] == states[j].(audits := states[j + 1].audits)
    ensures states[j + 1].audits[|states[j].audits|].reasonCode == Some(IdempotencyConflict)
  {
    FirstRecorded(states, commands, ctx, i);
    StillRecorded(states, commands, ctx, i + 1, j, commands[i].operationId);
    assert Stepped(states, commands, j, ctx);
  }
}
