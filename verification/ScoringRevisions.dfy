/** Revision chains of calculated results (src/domain/fantasy-scoring.ts, revisionDecision). */
module ScoringRevisions {
  import opened Base
  import opened Errors
  import opened Text

  datatype ResultStatus = InProgress | AwaitingFinalData | Ready | Final

  datatype CalculationAction = Calculate | Recalculate | Finalize

  /** What the next revision is checked against. Digests are free of collisions, so `S` and `R` are what they cover. */
  datatype Envelope<S, R> = Envelope(
    id: Id,
    revision: int,
    sourceDigest: S,
    resultDigest: R,
    calculatedAt: Instant,
    status: ResultStatus)

  datatype Identity = Identity(
    id: Id,
    revision: int,
    previousId: Option<Id>,
    correctionReason: Option<string>,
    calculatedAt: Instant)

  datatype Correction<R> = Correction(reason: string, previousId: Id, previousDigest: R)

  datatype Decision<R> = Decision(action: CalculationAction, correction: Option<Correction<R>>)

  const RevisionRefused: Fault := ScoringFault(ScoringCode.RevisionConflict)

  function RevisionDecision<S(==), R>(
    identity: Identity, source: S, status: ResultStatus, previous: Option<Envelope<S, R>>
  ): Result<Decision<R>, Fault>
  {
    var numbered := 0 <= identity.revision <= MAX_SAFE_INTEGER;
    :- Need(numbered, ScoringFault(ScoringCode.InvalidInput));
    match previous
    case None =>
      :- Need(identity.revision == 0 && identity.previousId.None? && identity.correctionReason.None?, RevisionRefused);
      Ok(Decision(if status == Final then Finalize else Calculate, None))
    case Some(prior) =>
      :- Need(identity.id != prior.id && identity.revision == prior.revision + 1 &&
              identity.previousId == Some(prior.id) && identity.calculatedAt > prior.calculatedAt, RevisionRefused);
      var sourceChanged := source != prior.sourceDigest;
      var finalizing := prior.status != Final && status == Final;
      :- Need(sourceChanged || prior.status != status, RevisionRefused);
      if sourceChanged && prior.status == Final then
        :- Need(identity.correctionReason.Some? && Trim(identity.correctionReason.value) != "", RevisionRefused);
        Ok(Decision(Recalculate, Some(Correction(Trim(identity.correctionReason.value), prior.id, prior.resultDigest))))
      else
        :- Need(identity.correctionReason.None?, RevisionRefused);
        Ok(Decision(if finalizing then Finalize else Calculate, None))
  }

  /** Every calculation refuses to take a final result back. */
  predicate StaysFinal<S, R>(previous: Option<Envelope<S, R>>, status: ResultStatus) {
    previous.Some? && previous.value.status == Final ==> status == Final
  }

  // ----- chains of accepted results -----

  datatype Link<S, R> = Link(envelope: Envelope<S, R>, previousId: Option<Id>, decision: Decision<R>)

  ghost predicate Accepted<S, R>(link: Link<S, R>, previous: Option<Envelope<S, R>>) {
    && StaysFinal(previous, link.envelope.status)
    && exists reason ::
         RevisionDecision(
           Identity(link.envelope.id, link.envelope.revision, link.previousId, reason, link.envelope.calculatedAt),
           link.envelope.sourceDigest, link.envelope.status, previous) == Ok(link.decision)
  }

  ghost function Prior<S, R>(links: seq<Link<S, R>>, i: nat): Option<Envelope<S, R>>
    requires i <= |links|
  {
    if i == 0 then None else Some(links[i - 1].envelope)
  }

  ghost predicate Linked<S, R>(links: seq<Link<S, R>>, i: nat)
    requires i < |links|
  {
    Accepted(links[i], Prior(links, i))
  }

  ghost predicate Chain<S, R>(links: seq<Link<S, R>>) {
    forall i :: 0 <= i < |links| ==> Linked(links, i)
  }

  /** A correction names the exact predecessor, gives a reason and rests on changed sources. */
  ghost predicate Corrects<S, R>(link: Link<S, R>, prior: Envelope<S, R>) {
    && link.decision.action == Recalculate
    && link.decision.correction.Some?
    && link.decision.correction.value.reason != ""
    && link.decision.correction.value.previousId == prior.id
    && link.decision.correction.value.previousDigest == prior.resultDigest
    && link.envelope.sourceDigest != prior.sourceDigest
  }

  /** The step of a chain before its final result, at it, and after it. */
  ghost predicate Phase<S, R>(links: seq<Link<S, R>>, i: nat, at: nat)
    requires i < |links|
  {
    if i < at then links[i].envelope.status != Final && links[i].decision == Decision(Calculate, None)
    else if i == at then links[i].envelope.status == Final && links[i].decision == Decision(Finalize, None)
    else
      i > 0 && links[i].envelope.status == Final && Corrects(links[i], links[i - 1].envelope)
  }

  /** The word of actions: CALCULATE up to `at`, FINALIZE there, RECALCULATE ever after. */
  ghost predicate Word<S, R>(links: seq<Link<S, R>>, at: nat) {
    at <= |links| && forall i :: 0 <= i < |links| ==> Phase(links, i, at)
  }

  /** Revision `i` carries the number `i`, names its predecessor and is strictly later. */
  ghost predicate NumberedAt<S, R>(links: seq<Link<S, R>>, i: nat)
    requires i < |links|
  {
    && links[i].envelope.revision == i
    && links[i].previousId == (if i == 0 then None else Some(links[i - 1].envelope.id))
    && (i > 0 ==> links[i - 1].envelope.calculatedAt < links[i].envelope.calculatedAt)
  }

  ghost predicate Numbered<S, R>(links: seq<Link<S, R>>) {
    forall i :: 0 <= i < |links| ==> NumberedAt(links, i)
  }

  lemma AcceptedStep<S, R>(link: Link<S, R>, previous: Option<Envelope<S, R>>)
    requires Accepted(link, previous)
    ensures link.envelope.revision == (if previous.Some? then previous.value.revision + 1 else 0)
    ensures link.previousId == (if previous.Some? then Some(previous.value.id) else None)
    ensures previous.Some? ==> previous.value.calculatedAt < link.envelope.calculatedAt
    ensures
      if previous.Some? && previous.value.status == Final
      then link.envelope.status == Final && Corrects(link, previous.value)
      else link.decision == Decision(if link.envelope.status == Final then Finalize else Calculate, None)
  {
  }

  lemma ChainPrefix<S, R>(links: seq<Link<S, R>>, n: nat)
    requires Chain(links) && n <= |links|
    ensures Chain(links[..n])
  {
    forall i | 0 <= i < n ensures Linked(links[..n], i) {
      assert Linked(links, i);
    }
  }

  lemma {:induction false} ChainNumbered<S, R>(links: seq<Link<S, R>>)
    requires Chain(links)
    ensures Numbered(links)
  {
    if links != [] {
      var n := |links| - 1;
      ChainPrefix(links, n);
      ChainNumbered(links[..n]);
      assert Linked(links, n);
      AcceptedStep(links[n], Prior(links, n));
      forall i | 0 <= i < n ensures NumberedAt(links, i) {
        assert NumberedAt(links[..n], i);
      }
      assert n > 0 ==> NumberedAt(links, n - 1);
      assert NumberedAt(links, n);
    }
  }

  lemma {:induction false} ChainWord<S, R>(links: seq<Link<S, R>>) returns (at: nat)
    requires Chain(links)
    ensures Word(links, at)
  {
    if links == [] {
      at := 0;
    } else {
      var n := |links| - 1;
      ChainPrefix(links, n);
      at := ChainWord(links[..n]);
      assert Linked(links, n);
      AcceptedStep(links[n], Prior(links, n));
      forall i | 0 <= i < n ensures Phase(links, i, at) {
        assert Phase(links[..n], i, at);
      }
      assert n > 0 ==> Phase(links, n - 1, at);
      if at == n && links[n].envelope.status != Final {
        at := n + 1;
        forall i | 0 <= i < n ensures Phase(links, i, at) {
          assert Phase(links, i, n);
        }
      }
      assert Phase(links, n, at);
    }
  }

  /** In every chain of accepted results: CALCULATE*, at most one FINALIZE, then only corrections of the exact
      predecessor. */
  lemma ChainShape<S, R>(links: seq<Link<S, R>>)
    requires Chain(links)
    ensures Numbered(links) && exists at :: Word(links, at)
  {
    ChainNumbered(links);
    var at := ChainWord(links);
  }

  /** FINAL is absorbing, and calculation times strictly increase along the whole chain. */
  lemma {:induction false} ChainOrder<S, R>(links: seq<Link<S, R>>, i: nat, j: nat)
    requires Chain(links) && i < j < |links|
    ensures links[i].envelope.calculatedAt < links[j].envelope.calculatedAt
    ensures links[i].envelope.status == Final ==> links[j].envelope.status == Final
    decreases j
  {
    ChainShape(links);
    assert Linked(links, j) && NumberedAt(links, j);
    if i < j - 1 {
      ChainOrder(links, i, j - 1);
    }
  }
}
