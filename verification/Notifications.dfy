/** When a notification may be delivered (src/domain/notifications.ts, notificationDeliveryAt). */
module Notifications {
  import opened Base
  import opened MinuteClock

  datatype DigestMode = Immediate | DailyDigest

  /** Delivery settings, in a zone at a fixed whole-minute offset from UTC. */
  datatype Settings = Settings(
    digestMode: DigestMode,
    digestMinute: int,
    offset: int,
    quietHoursEnabled: bool,
    quietStartMinute: int,
    quietEndMinute: int)

  datatype DeliveryError = ScheduleInvalid | NoSafeTime

  /** Loop passes: the occurrence itself and eight days of minute boundaries. */
  const SEARCH_LIMIT: nat := 8 * 24 * 60 + 1

  predicate Quiet(settings: Settings, minute: int) {
    settings.quietHoursEnabled && InWindow(minute, settings.quietStartMinute, settings.quietEndMinute)
  }

  predicate SafeMinute(settings: Settings, minute: int) {
    (settings.digestMode == DailyDigest ==> minute == settings.digestMinute) && !Quiet(settings, minute)
  }

  function Safe(settings: Settings): MinuteRule {
    (minute: int) => SafeMinute(settings, minute)
  }

  /** The guard of the function itself: it bounds the digest minute, but not the quiet minutes. */
  predicate ScheduleValid(settings: Settings) {
    0 <= settings.digestMinute <= 1_439 && settings.quietStartMinute != settings.quietEndMinute
  }

  /** What the preference schema adds. */
  predicate SchemaValid(settings: Settings) {
    ScheduleValid(settings) && MinuteOfDay(settings.quietStartMinute) && MinuteOfDay(settings.quietEndMinute)
  }

  function DeliveryAt(occurredAt: Instant, settings: Settings): Result<Instant, DeliveryError> {
    if !ScheduleValid(settings) then Err(ScheduleInvalid)
    else
      match Seek(Safe(settings), settings.offset, occurredAt, SEARCH_LIMIT)
      case Some(at) => Ok(at)
      case None => Err(NoSafeTime)
  }

  method NotificationDeliveryAt(
    occurredAt: Instant, settings: Settings
  ) returns (delivery: Result<Instant, DeliveryError>)
    ensures delivery == DeliveryAt(occurredAt, settings)
  {
    if !ScheduleValid(settings) {
      return Err(ScheduleInvalid);
    }
    var candidate := occurredAt;
    var mustMatchDigest := settings.digestMode == DailyDigest;
    for index := 0 to SEARCH_LIMIT
      invariant Seek(Safe(settings), settings.offset, occurredAt, SEARCH_LIMIT)
             == Seek(Safe(settings), settings.offset, candidate, SEARCH_LIMIT - index)
    {
      var minute := LocalMinute(candidate, settings.offset);
      var quiet := settings.quietHoursEnabled && InWindow(minute, settings.quietStartMinute, settings.quietEndMinute);
      if (!mustMatchDigest || minute == settings.digestMinute) && !quiet {
        return Ok(candidate);
      }
      candidate := NextMinute(candidate);
    }
    return Err(NoSafeTime);
  }

  /** For the settings the function lets pass: the delivery is the earliest instant, over all milliseconds, at or after
      the occurrence that meets the digest and quiet rules, at most a day later; there is none exactly when no minute of
      the day meets them. */
  lemma DeliveryIsEarliest(occurredAt: Instant, settings: Settings)
    requires ScheduleValid(settings)
    ensures DeliveryAt(occurredAt, settings).Ok? <==>
              exists minute :: MinuteOfDay(minute) && SafeMinute(settings, minute)
    ensures DeliveryAt(occurredAt, settings).Ok? ==>
              var at := DeliveryAt(occurredAt, settings).value;
              Earliest(Safe(settings), settings.offset, occurredAt, at) && at <= occurredAt + DAY
  {
    SeekDecides(Safe(settings), settings.offset, occurredAt, SEARCH_LIMIT);
    assert (exists minute :: MinuteOfDay(minute) && SafeMinute(settings, minute)) <==>
           (exists minute :: MinuteOfDay(minute) && Safe(settings)(minute));
  }

  /** For settings that meet the schema there is no safe time exactly when a daily digest minute lies in enabled quiet
      hours. */
  lemma NoSafeTimeExactly(occurredAt: Instant, settings: Settings)
    requires SchemaValid(settings)
    ensures DeliveryAt(occurredAt, settings) == Err(NoSafeTime) <==>
            settings.digestMode == DailyDigest && Quiet(settings, settings.digestMinute)
  {
    DeliveryIsEarliest(occurredAt, settings);
    if settings.digestMode == Immediate {
      assert MinuteOfDay(settings.quietEndMinute) && SafeMinute(settings, settings.quietEndMinute);
    } else {
      assert MinuteOfDay(settings.digestMinute);
    }
  }

  /** The window leaves no minute of the day outside, whatever integers bound it. */
  predicate CoversDay(start: int, end: int) {
    if start < end then start <= 0 && end >= 1_440 else start <= 0 || end >= 1_440
  }

  lemma CoveringWindow(start: int, end: int)
    requires start != end
    ensures CoversDay(start, end) <==> forall minute :: MinuteOfDay(minute) ==> InWindow(minute, start, end)
  {
    if !CoversDay(start, end) {
      var outside := if start < end then (if start > 0 then 0 else 1_439) else if end > 0 then end else 0;
      assert MinuteOfDay(outside) && !InWindow(outside, start, end);
    }
  }

  /** The condition on the fields, for all settings that the function accepts: no safe time is found exactly when the
      daily digest minute is quiet, or when quiet hours leave an immediate notification no minute of the day. */
  lemma NoSafeTimeByFields(occurredAt: Instant, settings: Settings)
    requires ScheduleValid(settings)
    ensures DeliveryAt(occurredAt, settings) == Err(NoSafeTime) <==>
            if settings.digestMode == DailyDigest then Quiet(settings, settings.digestMinute)
            else settings.quietHoursEnabled && CoversDay(settings.quietStartMinute, settings.quietEndMinute)
  {
    DeliveryIsEarliest(occurredAt, settings);
    CoveringWindow(settings.quietStartMinute, settings.quietEndMinute);
    if settings.digestMode == DailyDigest {
      assert MinuteOfDay(settings.digestMinute);
    } else {
      assert MinuteOfDay(0) && (settings.quietHoursEnabled || SafeMinute(settings, 0));
      forall minute | MinuteOfDay(minute)
        ensures settings.quietHoursEnabled ==>
                  (SafeMinute(settings, minute) <==>
                     !InWindow(minute, settings.quietStartMinute, settings.quietEndMinute))
      {
      }
    }
  }

  /** Without the schema's bounds quiet hours may cover the whole day, so that even an immediate notification finds no
      time. */
  lemma UnboundedQuietHours(occurredAt: Instant)
    ensures DeliveryAt(occurredAt, Settings(Immediate, 0, 0, true, 0, 1_440)) == Err(NoSafeTime)
  {
    DeliveryIsEarliest(occurredAt, Settings(Immediate, 0, 0, true, 0, 1_440));
  }
}
