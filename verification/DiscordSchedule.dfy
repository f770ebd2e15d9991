/** When the Discord updater looks again (src/domain/discord-update-schedule.ts) under accepted settings
    (src/domain/discord-settings.ts). */
module DiscordSchedule {
  import opened Base
  import opened Ordering
  import opened MinuteClock

  datatype CadenceMode = EventDriven | FixedInterval | ManualOnly

  datatype Window = Window(enabled: bool, startMinute: int, endMinute: int)

  datatype Digest = Digest(enabled: bool, minute: int)

  datatype SchedulePolicy = SchedulePolicy(cadenceMode: CadenceMode, cadenceSeconds: int, gameDayWindow: Window,
                                           digest: Digest)

  /** Quiet hours in a zone at a fixed whole-minute offset from UTC. */
  datatype QuietHours = QuietHours(window: Window, offset: int)

  datatype EvaluationInput = EvaluationInput(
    enabled: bool,
    policy: SchedulePolicy,
    quietHours: QuietHours,
    now: Instant,
    manualRefreshRequestedAt: Option<Instant>,
    resumeCatchUp: bool)

  const SCAN_LIMIT: nat := 8 * 24 * 60

  predicate Within(window: Window, minute: int) {
    InWindow(minute, window.startMinute, window.endMinute)
  }

  predicate AllowedMinute(gameDay: Window, quiet: Window, minute: int) {
    (!gameDay.enabled || Within(gameDay, minute)) && (!quiet.enabled || !Within(quiet, minute))
  }

  function Allowed(policy: SchedulePolicy, quietHours: QuietHours): MinuteRule {
    (minute: int) => AllowedMinute(policy.gameDayWindow, quietHours.window, minute)
  }

  function DigestDue(policy: SchedulePolicy, quietHours: QuietHours): MinuteRule {
    (minute: int) => minute == policy.digest.minute && AllowedMinute(policy.gameDayWindow, quietHours.window, minute)
  }

  /** The bounded scan over the minute boundaries after `start`. */
  method Scan(rule: MinuteRule, offset: int, start: Instant) returns (found: Option<Instant>)
    ensures found == Seek(rule, offset, NextMinute(start), SCAN_LIMIT)
  {
    var candidate := NextMinute(start);
    NextBoundary(start);
    for index := 0 to SCAN_LIMIT
      invariant OnBoundary(candidate)
      invariant Seek(rule, offset, NextMinute(start), SCAN_LIMIT) == Seek(rule, offset, candidate, SCAN_LIMIT - index)
    {
      if Good(rule, offset, candidate) {
        return Some(candidate);
      }
      SeekOn(rule, offset, candidate, SCAN_LIMIT - index);
      candidate := candidate + MINUTE;
    }
    return None;
  }

  // ----- candidates -----

  /** The candidate for one start: the start itself if it is allowed. */
  function StartCandidate(rule: MinuteRule, offset: int, start: Instant): Option<Instant> {
    if Good(rule, offset, start) then Some(start) else Seek(rule, offset, NextMinute(start), SCAN_LIMIT)
  }

  function DigestCandidate(input: EvaluationInput): Option<Instant> {
    Seek(DigestDue(input.policy, input.quietHours), input.quietHours.offset, NextMinute(input.now), SCAN_LIMIT)
  }

  function Listed(candidate: Option<Instant>): seq<Instant> {
    if candidate.Some? then [candidate.value] else []
  }

  /** The starts that the input asks for, in the order the code adds them. */
  function Starts(input: EvaluationInput): seq<Instant> {
    (if input.manualRefreshRequestedAt.Some?
     then [if input.manualRefreshRequestedAt.value > input.now then input.manualRefreshRequestedAt.value else input.now]
     else []) +
    (if input.resumeCatchUp then [input.now] else []) +
    (if input.policy.cadenceMode == FixedInterval then [input.now + input.policy.cadenceSeconds * 1_000] else [])
  }

  function FromStart(input: EvaluationInput): Instant -> seq<Instant> {
    (start: Instant) => Listed(StartCandidate(Allowed(input.policy, input.quietHours), input.quietHours.offset, start))
  }

  function StartCandidates(input: EvaluationInput): seq<Instant> {
    Flat(FromStart(input), Starts(input))
  }

  function Candidates(input: EvaluationInput): seq<Instant> {
    StartCandidates(input) + if input.policy.digest.enabled then Listed(DigestCandidate(input)) else []
  }

  function ByTime(): (Instant, Instant) -> bool {
    (left: Instant, right: Instant) => left <= right
  }

  function NextEvaluation(input: EvaluationInput): Option<Instant> {
    if !input.enabled then None
    else
      var sorted := Sort(ByTime(), Candidates(input));
      if sorted == [] then None else Some(sorted[0])
  }

  /** The closure addAllowed: one more start is taken into account. */
  method AddAllowed(input: EvaluationInput, start: Instant, candidates: seq<Instant>, ghost starts: seq<Instant>)
    returns (extended: seq<Instant>)
    requires candidates == Flat(FromStart(input), starts)
    ensures extended == Flat(FromStart(input), starts + [start])
  {
    var rule, offset := Allowed(input.policy, input.quietHours), input.quietHours.offset;
    FlatSnoc(FromStart(input), starts, start);
    if rule(LocalMinute(start, offset)) {
      return candidates + [start];
    }
    var candidate := Scan(rule, offset, start);
    return if candidate.Some? then candidates + [candidate.value] else candidates;
  }

  method AddStarts(input: EvaluationInput) returns (candidates: seq<Instant>)
    ensures candidates == StartCandidates(input)
  {
    candidates := [];
    ghost var starts: seq<Instant> := [];
    if input.manualRefreshRequestedAt.Some? {
      var manual := input.manualRefreshRequestedAt.value;
      var start := if manual > input.now then manual else input.now;
      candidates := AddAllowed(input, start, candidates, starts);
      starts := starts + [start];
    }
    if input.resumeCatchUp {
      candidates := AddAllowed(input, input.now, candidates, starts);
      starts := starts + [input.now];
    }
    if input.policy.cadenceMode == FixedInterval {
      var start := input.now + input.policy.cadenceSeconds * 1_000;
      candidates := AddAllowed(input, start, candidates, starts);
      starts := starts + [start];
    }
    assert starts == Starts(input);
  }

  method NextDiscordEvaluation(input: EvaluationInput) returns (next: Option<Instant>)
    ensures next == NextEvaluation(input)
  {
    if !input.enabled {
      return None;
    }
    var candidates := AddStarts(input);
    if input.policy.digest.enabled {
      var digest := Scan(DigestDue(input.policy, input.quietHours), input.quietHours.offset, input.now);
      if digest.Some? {
        candidates := candidates + [digest.value];
      }
    }
    assert candidates == Candidates(input);
    var sorted := Sort(ByTime(), candidates);
    return if sorted == [] then None else Some(sorted[0]);
  }

  // ----- one candidate -----

  ghost predicate SomeMinute(rule: MinuteRule) {
    exists minute :: MinuteOfDay(minute) && rule(minute)
  }

  /** The candidate of a start is the earliest allowed instant, over all milliseconds, at or after it; there is none
      exactly when no minute of the day is allowed, and it is never more than a day away. */
  lemma StartCandidateExact(rule: MinuteRule, offset: int, start: Instant)
    ensures StartCandidate(rule, offset, start).Some? <==> SomeMinute(rule)
    ensures StartCandidate(rule, offset, start).Some? ==>
              var found := StartCandidate(rule, offset, start).value;
              Earliest(rule, offset, start, found) && found <= start + DAY
  {
    assert StartCandidate(rule, offset, start) == Seek(rule, offset, start, SCAN_LIMIT + 1);
    SeekDecides(rule, offset, start, SCAN_LIMIT + 1);
  }

  /** The digest candidate is the first minute boundary strictly after now that shows the digest minute, if that minute
      is allowed. */
  lemma DigestCandidateExact(input: EvaluationInput)
    ensures DigestCandidate(input).Some? <==>
            && MinuteOfDay(input.policy.digest.minute)
            && AllowedMinute(input.policy.gameDayWindow, input.quietHours.window, input.policy.digest.minute)
    ensures DigestCandidate(input).Some? ==>
              var found, rule := DigestCandidate(input).value, DigestDue(input.policy, input.quietHours);
              && input.now < found
              && Good(rule, input.quietHours.offset, found)
              && (forall u :: input.now < u < found && OnBoundary(u) ==> !Good(rule, input.quietHours.offset, u))
              && found <= NextMinute(input.now) + DAY
  {
    var rule, offset := DigestDue(input.policy, input.quietHours), input.quietHours.offset;
    NextMinuteIsFirst(input.now);
    SeekDecides(rule, offset, NextMinute(input.now), SCAN_LIMIT);
    assert SomeMinute(rule) <==>
           MinuteOfDay(input.policy.digest.minute) && rule(input.policy.digest.minute);
  }

  // ----- the next evaluation -----

  lemma SortFirstIsMin(candidates: seq<Instant>)
    ensures Sort(ByTime(), candidates) == [] <==> candidates == []
    ensures candidates != [] ==>
              var first := Sort(ByTime(), candidates)[0];
              first in candidates && forall t :: t in candidates ==> first <= t
  {
    SortContents(ByTime(), candidates);
    SortSorted(ByTime(), candidates);
    forall t | t in candidates ensures Sort(ByTime(), candidates)[0] <= t {
      assert t in Sort(ByTime(), candidates);
      SortedHead(ByTime(), Sort(ByTime(), candidates), t);
    }
  }

  lemma {:induction false} FlatMember(f: Instant -> seq<Instant>, starts: seq<Instant>, t: Instant)
    ensures t in Flat(f, starts) <==> exists start :: start in starts && t in f(start)
  {
    if starts != [] {
      var init, last := starts[..|starts| - 1], starts[|starts| - 1];
      assert starts == init + [last];
      FlatMember(f, init, t);
    }
  }

  /** What the evaluation is due for: an allowed instant no earlier than a start, or the digest minute. */
  ghost predicate Due(input: EvaluationInput, t: Instant) {
    || (exists start :: start in Starts(input) &&
          Earliest(Allowed(input.policy, input.quietHours), input.quietHours.offset, start, t))
    || (input.policy.digest.enabled && DigestCandidate(input) == Some(t))
  }

  lemma CandidatesAreDue(input: EvaluationInput, t: Instant)
    ensures t in Candidates(input) <==> Due(input, t)
  {
    var rule, offset := Allowed(input.policy, input.quietHours), input.quietHours.offset;
    FlatMember(FromStart(input), Starts(input), t);
    forall start
      ensures t in Listed(StartCandidate(rule, offset, start)) <==> Earliest(rule, offset, start, t)
    {
      StartCandidateExact(rule, offset, start);
      if Earliest(rule, offset, start, t) {
        assert MinuteOfDay(LocalMinute(t, offset)) && rule(LocalMinute(t, offset));
      }
    }
  }

  lemma DueIsNotPast(input: EvaluationInput, t: Instant)
    requires Due(input, t) && input.policy.cadenceSeconds >= 0
    ensures input.now <= t
  {
    DigestCandidateExact(input);
  }

  /** The next evaluation is the earliest instant for which any of the enabled reasons is due, and never in the past. */
  lemma NextEvaluationIsEarliestDue(input: EvaluationInput)
    requires input.enabled
    ensures NextEvaluation(input).Some? <==> exists t :: Due(input, t)
    ensures NextEvaluation(input).Some? ==>
              && Due(input, NextEvaluation(input).value)
              && (forall t :: Due(input, t) ==> NextEvaluation(input).value <= t)
              && (input.policy.cadenceSeconds >= 0 ==> input.now <= NextEvaluation(input).value)
  {
    SortFirstIsMin(Candidates(input));
    forall t ensures t in Candidates(input) <==> Due(input, t) {
      CandidatesAreDue(input, t);
    }
    if Candidates(input) != [] {
      assert Due(input, Candidates(input)[0]);
      if input.policy.cadenceSeconds >= 0 {
        DueIsNotPast(input, NextEvaluation(input).value);
      }
    }
  }

  // ----- accepted settings -----

  /** The refinements start and end minute must differ, whether or not the window is enabled. */
  predicate WindowValid(window: Window) {
    MinuteOfDay(window.startMinute) && MinuteOfDay(window.endMinute) && window.startMinute != window.endMinute
  }

  /** The eligible-minute part of discordConfigurationCompatibilityErrors reports no error. */
  predicate WindowsCompatible(gameDay: Window, quiet: Window) {
    gameDay.enabled && quiet.enabled ==>
      exists minute :: 0 <= minute < 1_440 && Within(gameDay, minute) && !Within(quiet, minute)
  }

  /** For valid windows the compatibility check passes exactly when some minute of the day is allowed. */
  lemma CompatibleMeansAllowed(policy: SchedulePolicy, quietHours: QuietHours)
    requires WindowValid(policy.gameDayWindow) && WindowValid(quietHours.window)
    ensures WindowsCompatible(policy.gameDayWindow, quietHours.window) <==> SomeMinute(Allowed(policy, quietHours))
  {
  }

  /** With valid windows an enabled fixed-interval schedule always has a next evaluation, within the cadence and a day,
      exactly when the settings pass the compatibility check. */
  lemma FixedIntervalNeverStops(input: EvaluationInput)
    requires input.enabled && input.policy.cadenceMode == FixedInterval
    requires WindowValid(input.policy.gameDayWindow) && WindowValid(input.quietHours.window)
    ensures NextEvaluation(input).Some? <==> WindowsCompatible(input.policy.gameDayWindow, input.quietHours.window)
    ensures NextEvaluation(input).Some? ==>
              NextEvaluation(input).value <= input.now + input.policy.cadenceSeconds * 1_000 + DAY
  {
    var rule, offset := Allowed(input.policy, input.quietHours), input.quietHours.offset;
    var start := input.now + input.policy.cadenceSeconds * 1_000;
    assert Starts(input)[|Starts(input)| - 1] == start;
    assert start in Starts(input);
    CompatibleMeansAllowed(input.policy, input.quietHours);
    StartCandidateExact(rule, offset, start);
    NextEvaluationIsEarliestDue(input);
    if SomeMinute(rule) {
      assert Due(input, StartCandidate(rule, offset, start).value);
    } else {
      DigestCandidateExact(input);
      forall t ensures !Due(input, t) {
        assert MinuteOfDay(LocalMinute(t, offset));
        assert MinuteOfDay(input.policy.digest.minute) ==> !rule(input.policy.digest.minute);
      }
    }
  }
}
