/** One student's booking status, sanctions and reservations under the operations that administrators
    and the maintenance jobs perform. Each operation is one transaction under the student's lock. */
module Sanctions {
  import opened Wrappers

  type Millis = int
  type Id = nat

  /** Days and minutes of the day in the fixed +09:00 zone; days are counted from the epoch. */
  const ZONE: Millis := 9 * 60 * 60_000
  const DAY: Millis := 24 * 60 * 60_000

  function Today(now: Millis): int { (now + ZONE) / DAY }

  /** A date as a text in string order: a day, or one of the texts between a day and the next that have
      the shape of a date but name no day; the booking routes let such texts through. */
  datatype DateText = DateText(day: int, beyond: nat)

  function DayText(day: int): DateText { DateText(day, 0) }

  predicate Later(a: DateText, b: DateText) { a.day > b.day || (a.day == b.day && a.beyond > b.beyond) }

  function MinuteOfDay(now: Millis): int { (now + ZONE) % DAY / 60_000 }

  datatype Period = Eighth | First

  datatype Setting = Setting(open: int, close: int, enabled: bool)

  const DEFAULT_SETTING := Setting(13 * 60, 16 * 60 + 20, true)

  /** A setting for one date takes precedence over the one for all dates. */
  datatype Settings = Settings(dated: map<(DateText, Period), Setting>, global: map<Period, Setting>)

  function StoredSetting(settings: Settings, date: DateText, period: Period): Option<Setting> {
    if (date, period) in settings.dated then Some(settings.dated[(date, period)])
    else if period in settings.global then Some(settings.global[period])
    else None
  }

  function EffectiveSetting(settings: Settings, date: DateText, period: Period): Setting {
    var stored := StoredSetting(settings, date, period);
    if stored.Some? then stored.value else DEFAULT_SETTING
  }

  datatype Window = Closed | NotOpenYet | Open

  function WindowState(setting: Setting, date: DateText, now: Millis): Window {
    if Later(DayText(Today(now)), date) then Closed
    else if MinuteOfDay(now) < setting.open then NotOpenYet
    else if MinuteOfDay(now) > setting.close then Closed
    else Open
  }

  datatype ReservationStatus = Confirmed | Cancelled | NoShow

  datatype Reservation = Reservation(date: DateText, period: Period, status: ReservationStatus)

  datatype BookingStatus = Active | Restricted | ShadowBanned | Banned

  datatype Sanction = Sanction(active: bool, endsAt: Option<Millis>)

  datatype Student = Student(status: BookingStatus, until: Option<Millis>, reason: Option<string>,
                             sanctions: seq<Sanction>, reservations: map<Id, Reservation>)

  predicate Cancellable(settings: Settings, r: Reservation, now: Millis) {
    && r.status == Confirmed
    && !Later(DayText(Today(now)), r.date)
    && (Later(r.date, DayText(Today(now)))
        || WindowState(EffectiveSetting(settings, DayText(Today(now)), r.period), DayText(Today(now)), now) != Closed)
  }

  function CancelFuture(settings: Settings, reservations: map<Id, Reservation>, now: Millis): map<Id, Reservation> {
    map r | r in reservations ::
      if Cancellable(settings, reservations[r], now) then reservations[r].(status := Cancelled) else reservations[r]
  }

  function CancellableIds(settings: Settings, reservations: map<Id, Reservation>, now: Millis): set<Id> {
    set r | r in reservations && Cancellable(settings, reservations[r], now)
  }

  function RevokeAll(sanctions: seq<Sanction>): (r: seq<Sanction>)
    ensures |r| == |sanctions|
  {
    seq(|sanctions|, i requires 0 <= i < |sanctions| => sanctions[i].(active := false))
  }

  function RevokeEnded(sanctions: seq<Sanction>, now: Millis): (r: seq<Sanction>)
    ensures |r| == |sanctions|
  {
    seq(|sanctions|, i requires 0 <= i < |sanctions| =>
      if Ended(sanctions[i].endsAt, now) then sanctions[i].(active := false) else sanctions[i])
  }

  predicate Ended(endsAt: Option<Millis>, now: Millis) { endsAt.Some? && endsAt.value <= now }

  datatype ReleaseType = All | Ban | Blacklist | Restriction

  predicate MatchesRelease(status: BookingStatus, release: ReleaseType) {
    match release
    case All => true
    case Ban => status == Banned
    case Blacklist => status == ShadowBanned
    case Restriction => status == Restricted
  }

  datatype Result = Ok(before: BookingStatus, cancelled: nat) | Refused(code: string)

  // ---------------------------------------------------------------- the operations as functions

  function Until(status: BookingStatus, days: Option<int>, now: Millis): Option<Millis> {
    if status == Restricted && days.Some? then Some(now + days.value * DAY) else None
  }

  /** Whether an administrator may restrict this account. */
  datatype Guard = Allowed | AdminTarget | SelfRestriction

  function GuardCode(g: Guard): string {
    match g case Allowed => "" case AdminTarget => "admin_target" case SelfRestriction => "self_restriction"
  }

  function ApplySanction(s: Student, settings: Settings, guard: Guard, status: BookingStatus, days: Option<int>,
                         reason: string, now: Millis): (Student, Result)
    requires status != Active
  {
    if guard != Allowed then (s, Refused(GuardCode(guard)))
    else if s.status == Banned && status != Banned then (s, Refused("weaker_status"))
    else if s.status == status && s.reason == Some(reason) && s.until == Until(status, days, now) then (s, Ok(s.status, 0))
    else
      (Student(status, Until(status, days, now), Some(reason),
               RevokeAll(s.sanctions) + [Sanction(true, Until(status, days, now))],
               if status == Banned then CancelFuture(settings, s.reservations, now) else s.reservations),
       Ok(s.status, if status == Banned then |CancellableIds(settings, s.reservations, now)| else 0))
  }

  function RemoveSanction(s: Student, guard: Guard, release: ReleaseType): (Student, Result) {
    if guard != Allowed then (s, Refused(GuardCode(guard)))
    else if !MatchesRelease(s.status, release) then (s, Refused("wrong_type"))
    else (Student(Active, None, None, RevokeAll(s.sanctions), s.reservations), Ok(s.status, 0))
  }

  function MarkNoShow(s: Student, settings: Settings, administrator: bool, id: Id, reason: string, now: Millis): (Student, Result) {
    if id !in s.reservations then (s, Refused("not_found"))
    else
      var r := s.reservations[id];
      var stored := StoredSetting(settings, r.date, r.period);
      if r.status != Confirmed then (s, Refused("invalid_status"))
      else if administrator then (s, Refused("admin_target"))
      else if stored.None? || Later(r.date, DayText(Today(now))) || WindowState(stored.value, r.date, now) != Closed then (s, Refused("not_closed"))
      else
        var marked := s.reservations[id := r.(status := NoShow)];
        (Student(Banned, None, Some(reason), RevokeAll(s.sanctions) + [Sanction(true, None)],
                 CancelFuture(settings, marked, now)),
         Ok(s.status, |CancellableIds(settings, marked, now)|))
  }

  function BookingStatusError(s: Student, now: Millis): Option<string> {
    match s.status
    case Active => None
    case ShadowBanned => Some("shadow_banned")
    case Banned => Some("restricted")
    case Restricted => if s.until.None? || s.until.value > now then Some("restricted") else None
  }

  /** Whether the date can be booked at all and whether the slot is full are decided elsewhere. */
  function CreateReservation(s: Student, settings: Settings, id: Id, date: DateText, period: Period, reservable: bool,
                             full: bool, now: Millis): (Student, Result)
    requires id !in s.reservations
  {
    var setting := EffectiveSetting(settings, date, period);
    if BookingStatusError(s, now).Some? then (s, Refused(BookingStatusError(s, now).value))
    else if !reservable then (s, Refused("advance_unavailable"))
    else if !setting.enabled then (s, Refused("disabled"))
    else if WindowState(setting, date, now) != Open then
      (s, Refused(if WindowState(setting, date, now) == Closed then "closed" else "not_open_yet"))
    else if exists r :: r in s.reservations && s.reservations[r].date == date && s.reservations[r].period == period then
      (s, Refused("duplicate"))
    else if full then (s, Refused("full"))
    else (s.(reservations := s.reservations[id := Reservation(date, period, Confirmed)]), Ok(s.status, 0))
  }

  function CancelReservation(s: Student, id: Id): (Student, Result) {
    if id !in s.reservations then (s, Refused("not_found"))
    else if s.reservations[id].status != Confirmed then (s, Refused("invalid_status"))
    else (s.(reservations := s.reservations[id := s.reservations[id].(status := Cancelled)]), Ok(s.status, 0))
  }

  function ReleaseExpired(s: Student, now: Millis): Student {
    if s.status == Restricted && Ended(s.until, now) then s.(status := Active, until := None, reason := None) else s
  }

  function RevokeExpired(s: Student, now: Millis): Student {
    s.(sanctions := RevokeEnded(s.sanctions, now))
  }

  // ---------------------------------------------------------------- the operations as they write

  class Record {
    var status: BookingStatus
    var until: Option<Millis>
    var reason: Option<string>
    var sanctions: seq<Sanction>
    var reservations: map<Id, Reservation>

    function Now(): Student
      reads this
    {
      Student(status, until, reason, sanctions, reservations)
    }

    constructor (reservations: map<Id, Reservation>)
      ensures Now() == Student(Active, None, None, [], reservations)
    {
      status, until, reason, sanctions, this.reservations := Active, None, None, [], reservations;
    }

    method CancelFutureReservations(settings: Settings, now: Millis) returns (count: nat)
      modifies this`reservations
      ensures reservations == CancelFuture(settings, old(reservations), now)
      ensures count == |CancellableIds(settings, old(reservations), now)|
    {
      count := |CancellableIds(settings, reservations, now)|;
      reservations := CancelFuture(settings, reservations, now);
    }

    method ReplaceSanction(endsAt: Option<Millis>)
      modifies this`sanctions
      ensures sanctions == RevokeAll(old(sanctions)) + [Sanction(true, endsAt)]
    {
      sanctions := RevokeAll(sanctions);
      sanctions := sanctions + [Sanction(true, endsAt)];
    }

    method Apply(settings: Settings, guard: Guard, newStatus: BookingStatus, days: Option<int>, why: string, now: Millis)
      returns (result: Result)
      requires newStatus != Active
      modifies this
      ensures (Now(), result) == ApplySanction(old(Now()), settings, guard, newStatus, days, why, now)
    {
      if guard != Allowed { return Refused(GuardCode(guard)); }
      if status == Banned && newStatus != Banned { return Refused("weaker_status"); }
      var restrictedUntil := Until(newStatus, days, now);
      if status == newStatus && reason == Some(why) && until == restrictedUntil { return Ok(status, 0); }
      var before := status;
      status, until, reason := newStatus, restrictedUntil, Some(why);
      var count := 0;
      if newStatus == Banned { count := CancelFutureReservations(settings, now); }
      ReplaceSanction(restrictedUntil);
      return Ok(before, count);
    }

    method Remove(guard: Guard, release: ReleaseType) returns (result: Result)
      modifies this
      ensures (Now(), result) == RemoveSanction(old(Now()), guard, release)
    {
      if guard != Allowed { return Refused(GuardCode(guard)); }
      if !MatchesRelease(status, release) { return Refused("wrong_type"); }
      result := Ok(status, 0);
      status, until, reason := Active, None, None;
      sanctions := RevokeAll(sanctions);
    }

    method NoShowBan(settings: Settings, administrator: bool, id: Id, why: string, now: Millis) returns (result: Result)
      modifies this
      ensures (Now(), result) == MarkNoShow(old(Now()), settings, administrator, id, why, now)
    {
      if id !in reservations { return Refused("not_found"); }
      var r := reservations[id];
      if r.status != Confirmed { return Refused("invalid_status"); }
      if administrator { return Refused("admin_target"); }
      var stored := StoredSetting(settings, r.date, r.period);
      if stored.None? || Later(r.date, DayText(Today(now))) || WindowState(stored.value, r.date, now) != Closed { return Refused("not_closed"); }
      reservations := reservations[id := r.(status := NoShow)];
      var count := CancelFutureReservations(settings, now);
      result := Ok(status, count);
      status, until, reason := Banned, None, Some(why);
      ReplaceSanction(None);
    }
  }

  // ---------------------------------------------------------------- what the operations do to the records

  /** The clock in the zone shows this day and this minute of the day. */
  predicate ClockShows(now: Millis, day: int, minute: int) {
    0 <= minute < 24 * 60 && 0 <= now + 32_400_000 - day * 86_400_000 - minute * 60_000 < 60_000
  }

  lemma ClockIs(now: Millis, day: int, minute: int)
    requires ClockShows(now, day, minute)
    ensures Today(now) == day && MinuteOfDay(now) == minute
  {
    var sinceMidnight := now + ZONE - day * DAY;
    assert now + ZONE == day * DAY + sinceMidnight && 0 <= sinceMidnight < DAY;
    assert sinceMidnight / 60_000 == minute;
  }

  /** The setting of a slot: the one for its date, else the one for all dates, else 13:00 to 16:20. */
  predicate IsSettingOf(settings: Settings, date: DateText, period: Period, setting: Setting) {
    && ((date, period) in settings.dated ==> setting == settings.dated[(date, period)])
    && ((date, period) !in settings.dated && period in settings.global ==> setting == settings.global[period])
    && ((date, period) !in settings.dated && period !in settings.global ==> setting == Setting(780, 980, true))
  }

  lemma SettingIs(settings: Settings, date: DateText, period: Period)
    ensures IsSettingOf(settings, date, period, EffectiveSetting(settings, date, period))
    ensures StoredSetting(settings, date, period).Some? <==> (date, period) in settings.dated || period in settings.global
    ensures StoredSetting(settings, date, period).Some? ==> StoredSetting(settings, date, period).value == EffectiveSetting(settings, date, period)
  {
  }

  /** The slot is on a later date, or is today's and its period is not over. */
  ghost predicate Ahead(settings: Settings, date: DateText, period: Period, day: int, minute: int) {
    || date.day > day || (date.day == day && date.beyond > 0)
    || (date == DateText(day, 0)
        && exists setting :: IsSettingOf(settings, date, period, setting) && (minute < setting.open || minute <= setting.close))
  }

  lemma CancellableIsAhead(settings: Settings, r: Reservation, now: Millis, day: int, minute: int)
    requires ClockShows(now, day, minute)
    ensures Cancellable(settings, r, now) <==> r.status == Confirmed && Ahead(settings, r.date, r.period, day, minute)
  {
    ClockIs(now, day, minute);
    SettingIs(settings, r.date, r.period);
  }

  function Changed(before: map<Id, Reservation>, after: map<Id, Reservation>): set<Id> {
    set r | r in before && r in after && after[r] != before[r]
  }

  /** Exactly the confirmed reservations of slots that are ahead become cancelled, and are counted. */
  ghost predicate CancelsAhead(before: map<Id, Reservation>, after: map<Id, Reservation>, settings: Settings,
                               day: int, minute: int, count: nat) {
    && after.Keys == before.Keys
    && (forall r :: r in before ==>
          after[r] == if before[r].status == Confirmed && Ahead(settings, before[r].date, before[r].period, day, minute)
                      then Reservation(before[r].date, before[r].period, Cancelled) else before[r])
    && count == |Changed(before, after)|
  }

  lemma CancellingAhead(settings: Settings, before: map<Id, Reservation>, now: Millis, day: int, minute: int)
    requires ClockShows(now, day, minute)
    ensures CancelsAhead(before, CancelFuture(settings, before, now), settings, day, minute, |CancellableIds(settings, before, now)|)
  {
    var after := CancelFuture(settings, before, now);
    forall r | r in before
      ensures Cancellable(settings, before[r], now) <==> before[r].status == Confirmed && Ahead(settings, before[r].date, before[r].period, day, minute)
    {
      CancellableIsAhead(settings, before[r], now, day, minute);
    }
    assert CancellableIds(settings, before, now) == Changed(before, after);
  }

  /** Every former sanction is over, and a new one with this end is in force. */
  ghost predicate Replaces(before: seq<Sanction>, after: seq<Sanction>, endsAt: Option<Millis>) {
    && |after| == |before| + 1 && after[|before|] == Sanction(true, endsAt)
    && forall i :: 0 <= i < |before| ==> after[i] == Sanction(false, before[i].endsAt)
  }

  /** Applying a sanction is refused for administrators, for oneself and in place of a ban by something
      less; it does nothing when it is there already; else it replaces what there was, and a ban also
      cancels what is ahead. */
  lemma ApplyingDoes(s: Student, settings: Settings, guard: Guard, status: BookingStatus, days: Option<int>,
                     reason: string, now: Millis, day: int, minute: int)
    requires status != Active && ClockShows(now, day, minute)
    ensures var (t, result) := ApplySanction(s, settings, guard, status, days, reason, now);
            var until := if status == Restricted && days.Some? then Some(now + days.value * 86_400_000) else None;
            if guard == AdminTarget then t == s && result == Refused("admin_target")
            else if guard == SelfRestriction then t == s && result == Refused("self_restriction")
            else if s.status == Banned && status != Banned then t == s && result == Refused("weaker_status")
            else if (s.status, s.until, s.reason) == (status, until, Some(reason)) then t == s && result == Ok(s.status, 0)
            else
              && result.Ok? && result.before == s.status && (t.status, t.until, t.reason) == (status, until, Some(reason))
              && Replaces(s.sanctions, t.sanctions, until)
              && if status == Banned then CancelsAhead(s.reservations, t.reservations, settings, day, minute, result.cancelled)
                 else t.reservations == s.reservations && result.cancelled == 0
  {
    CancellingAhead(settings, s.reservations, now, day, minute);
  }

  /** A release takes effect exactly when it is of everything or of the kind of the status. */
  lemma ReleasingDoes(s: Student, guard: Guard, release: ReleaseType)
    ensures var (t, result) := RemoveSanction(s, guard, release);
            if guard == Allowed
               && (release == All || (release == Restriction && s.status == Restricted)
                   || (release == Blacklist && s.status == ShadowBanned) || (release == Ban && s.status == Banned))
            then
              && result == Ok(s.status, 0) && (t.status, t.until, t.reason, t.reservations) == (Active, None, None, s.reservations)
              && |t.sanctions| == |s.sanctions|
              && forall i :: 0 <= i < |s.sanctions| ==> t.sanctions[i] == Sanction(false, s.sanctions[i].endsAt)
            else
              t == s && result == Refused(if guard == AdminTarget then "admin_target"
                                          else if guard == SelfRestriction then "self_restriction" else "wrong_type")
  {
  }

  /** A slot whose date is past, or which is today's and has passed its closing time. */
  predicate HasClosed(setting: Setting, date: DateText, day: int, minute: int) {
    date.day < day || (date == DateText(day, 0) && setting.open <= minute && setting.close < minute)
  }

  /** A no-show is marked exactly for a student's confirmed reservation of a slot that has a stored setting
      and has closed; it then bans for good and cancels what else is ahead. */
  lemma MarkingDoes(s: Student, settings: Settings, administrator: bool, id: Id, reason: string, now: Millis, day: int, minute: int)
    requires ClockShows(now, day, minute)
    ensures var (t, result) := MarkNoShow(s, settings, administrator, id, reason, now);
            if id !in s.reservations then t == s && result == Refused("not_found")
            else
              var r := s.reservations[id];
              if r.status != Confirmed then t == s && result == Refused("invalid_status")
              else if administrator then t == s && result == Refused("admin_target")
              else if ((r.date, r.period) in settings.dated || r.period in settings.global)
                      && exists setting :: IsSettingOf(settings, r.date, r.period, setting) && HasClosed(setting, r.date, day, minute)
              then
                && result.Ok? && result.before == s.status && (t.status, t.until, t.reason) == (Banned, None, Some(reason))
                && Replaces(s.sanctions, t.sanctions, None)
                && CancelsAhead(s.reservations[id := Reservation(r.date, r.period, NoShow)], t.reservations, settings, day, minute, result.cancelled)
              else t == s && result == Refused("not_closed")
  {
    ClockIs(now, day, minute);
    if id in s.reservations {
      var r := s.reservations[id];
      SettingIs(settings, r.date, r.period);
      CancellingAhead(settings, s.reservations[id := r.(status := NoShow)], now, day, minute);
    }
  }

  /** A student may book when active, or when the restriction has run out. */
  predicate MayBook(s: Student, now: Millis) {
    s.status == Active || (s.status == Restricted && s.until.Some? && s.until.value <= now)
  }

  /** A reservation is made exactly for a student who may book, on a date that can be booked, in an enabled
      slot between its opening and closing minutes, where the student has none and there is a place. */
  lemma CreatingDoes(s: Student, settings: Settings, id: Id, date: DateText, period: Period, reservable: bool, full: bool,
                     now: Millis, day: int, minute: int)
    requires id !in s.reservations && ClockShows(now, day, minute)
    ensures var (t, result) := CreateReservation(s, settings, id, date, period, reservable, full, now);
            var setting := EffectiveSetting(settings, date, period);
            && IsSettingOf(settings, date, period, setting)
            && if MayBook(s, now) && reservable && setting.enabled && date.day >= day && setting.open <= minute <= setting.close
                  && (forall r :: r in s.reservations ==> (s.reservations[r].date, s.reservations[r].period) != (date, period)) && !full
               then t == s.(reservations := s.reservations[id := Reservation(date, period, Confirmed)]) && result == Ok(s.status, 0)
               else
                 && t == s && result.Refused?
                 && (!MayBook(s, now) <==> result.code in {"restricted", "shadow_banned"})
                 && (result.code == "shadow_banned" <==> s.status == ShadowBanned)
                 && (MayBook(s, now) && !reservable ==> result.code == "advance_unavailable")
                 && (MayBook(s, now) && reservable && !setting.enabled ==> result.code == "disabled")
                 && (result.code == "closed" ==> date.day < day || minute > setting.close)
                 && (result.code == "not_open_yet" ==> date.day >= day && minute < setting.open)
                 && (result.code == "full" ==> full)
  {
    ClockIs(now, day, minute);
    SettingIs(settings, date, period);
  }

  lemma CancellingDoes(s: Student, id: Id)
    ensures var (t, result) := CancelReservation(s, id);
            if id in s.reservations && s.reservations[id].status == Confirmed
            then result == Ok(s.status, 0) && t == s.(reservations := s.reservations[id := s.reservations[id].(status := Cancelled)])
            else t == s && result == Refused(if id in s.reservations then "invalid_status" else "not_found")
  {
  }

  /** The jobs take back exactly the restrictions and the sanctions whose end has come. */
  lemma ExpiringDoes(s: Student, now: Millis)
    ensures var t := ReleaseExpired(s, now);
            && (t.sanctions, t.reservations) == (s.sanctions, s.reservations)
            && (t.status, t.until, t.reason) ==
               if s.status == Restricted && s.until.Some? && s.until.value <= now then (Active, None, None) else (s.status, s.until, s.reason)
    ensures var t := RevokeExpired(s, now);
            && (t.status, t.until, t.reason, t.reservations) == (s.status, s.until, s.reason, s.reservations)
            && |t.sanctions| == |s.sanctions|
            && forall i :: 0 <= i < |s.sanctions| ==>
                 var x := s.sanctions[i];
                 t.sanctions[i] == if x.endsAt.Some? && x.endsAt.value <= now then Sanction(false, x.endsAt) else x
  {
  }

  // ---------------------------------------------------------------- runs

  datatype Event =
    | Apply(guard: Guard, status: BookingStatus, days: Option<int>, reason: string)
    | Release(guard: Guard, release: ReleaseType)
    | NoShowEvent(administrator: bool, id: Id, reason: string)
    | Create(id: Id, date: DateText, period: Period, reservable: bool, full: bool)
    | Cancel(id: Id)
    | ReleaseExpiredRestrictions
    | RevokeExpiredSanctions

  predicate Possible(s: Student, e: Event) {
    && (e.Apply? ==> e.status != Active)
    && (e.Create? ==> e.id !in s.reservations)
  }

  function Next(s: Student, settings: Settings, e: Event, now: Millis): Student
    requires Possible(s, e)
  {
    match e
    case Apply(guard, status, days, reason) => ApplySanction(s, settings, guard, status, days, reason, now).0
    case Release(guard, release) => RemoveSanction(s, guard, release).0
    case NoShowEvent(administrator, id, reason) => MarkNoShow(s, settings, administrator, id, reason, now).0
    case Create(id, date, period, reservable, full) => CreateReservation(s, settings, id, date, period, reservable, full, now).0
    case Cancel(id) => CancelReservation(s, id).0
    case ReleaseExpiredRestrictions => ReleaseExpired(s, now)
    case RevokeExpiredSanctions => RevokeExpired(s, now)
  }

  /** Transactions commit one after the other at non-decreasing times. Each works with the time that
      was read when its request came in, so these may be out of order. The settings do not change. */
  ghost predicate ValidRun(states: seq<Student>, events: seq<Event>, read: seq<Millis>, times: seq<Millis>, settings: Settings) {
    && |states| == |events| + 1 == |times| == |read| + 1
    && forall i :: 0 <= i < |events| ==> Commits(states, events, read, times, settings, i)
  }

  ghost predicate Commits(states: seq<Student>, events: seq<Event>, read: seq<Millis>, times: seq<Millis>, settings: Settings, i: nat)
    requires |states| == |events| + 1 == |times| == |read| + 1 && i < |events|
  {
    && times[i] <= times[i + 1] && read[i] <= times[i + 1]
    && Possible(states[i], events[i])
    && states[i + 1] == Next(states[i], settings, events[i], read[i])
  }

  ghost predicate AtMostOneActive(sanctions: seq<Sanction>) {
    forall i, k :: 0 <= i < k < |sanctions| ==> !(sanctions[i].active && sanctions[k].active)
  }

  ghost predicate SomeActive(sanctions: seq<Sanction>) {
    exists i :: 0 <= i < |sanctions| && sanctions[i].active
  }

  /** Status and sanctions agree, up to restrictions that have run out: an active student's sanctions
      have ended, and another student has the active sanction of the status or a restriction that ended. */
  ghost predicate Agrees(s: Student, now: Millis) {
    && AtMostOneActive(s.sanctions)
    && (s.status == Active ==> forall i :: 0 <= i < |s.sanctions| && s.sanctions[i].active ==> Ended(s.sanctions[i].endsAt, now))
    && (s.status != Active ==>
          && (forall i :: 0 <= i < |s.sanctions| && s.sanctions[i].active ==> s.sanctions[i].endsAt == s.until)
          && (SomeActive(s.sanctions) || Ended(s.until, now)))
    && (s.status == Banned || s.status == ShadowBanned ==> s.until.None?)
  }

  /** A banned student holds no reservation that could still be cancelled. */
  ghost predicate NothingLeft(s: Student, settings: Settings, now: Millis) {
    s.status == Banned ==> forall r :: r in s.reservations ==> !Cancellable(settings, s.reservations[r], now)
  }

  lemma MinutesGoUp(now: Millis, later: Millis)
    requires now <= later && Today(now) == Today(later)
    ensures MinuteOfDay(now) <= MinuteOfDay(later)
  {
    var a, b := now + ZONE, later + ZONE;
    assert a == Today(now) * DAY + a % DAY && b == Today(later) * DAY + b % DAY;
  }

  /** What cannot be cancelled any more never becomes cancellable again. */
  lemma CancellableFades(settings: Settings, r: Reservation, now: Millis, later: Millis)
    requires now <= later && Cancellable(settings, r, later)
    ensures Cancellable(settings, r, now)
  {
    assert Today(now) <= Today(later);
    if Today(now) == Today(later) { MinutesGoUp(now, later); }
  }

  lemma CancelFutureLeavesNothing(settings: Settings, reservations: map<Id, Reservation>, now: Millis, later: Millis)
    requires now <= later
    ensures var after := CancelFuture(settings, reservations, now);
            forall r :: r in after ==> !Cancellable(settings, after[r], later)
  {
    var after := CancelFuture(settings, reservations, now);
    forall r | r in after ensures !Cancellable(settings, after[r], later) {
      if Cancellable(settings, after[r], later) { CancellableFades(settings, after[r], now, later); }
    }
  }

  lemma TimePasses(s: Student, settings: Settings, now: Millis, later: Millis)
    requires now <= later && Agrees(s, now) && NothingLeft(s, settings, now)
    ensures Agrees(s, later) && NothingLeft(s, settings, later)
  {
    forall r | r in s.reservations && Cancellable(settings, s.reservations[r], later)
      ensures Cancellable(settings, s.reservations[r], now)
    {
      CancellableFades(settings, s.reservations[r], now, later);
    }
  }

  lemma ReplacedAgrees(s: Student, sanctions: seq<Sanction>, now: Millis)
    requires s.status != Active && s.sanctions == RevokeAll(sanctions) + [Sanction(true, s.until)]
    requires s.status == Banned || s.status == ShadowBanned ==> s.until.None?
    ensures Agrees(s, now) && SomeActive(s.sanctions)
  {
    assert s.sanctions[|sanctions|].active;
  }

  lemma StepKeeps(s: Student, settings: Settings, e: Event, now: Millis, clock: Millis)
    requires now <= clock && Possible(s, e) && Agrees(s, clock) && NothingLeft(s, settings, clock)
    ensures var t := Next(s, settings, e, now); Agrees(t, clock) && NothingLeft(t, settings, clock)
  {
    var t := Next(s, settings, e, now);
    match e
    case Apply(guard, status, days, reason) =>
      if t != s {
        ReplacedAgrees(t, s.sanctions, clock);
        CancelFutureLeavesNothing(settings, s.reservations, now, clock);
      }
    case NoShowEvent(administrator, id, reason) =>
      if t != s {
        ReplacedAgrees(t, s.sanctions, clock);
        CancelFutureLeavesNothing(settings, s.reservations[id := s.reservations[id].(status := NoShow)], now, clock);
      }
    case Release(_, _) =>
    case Create(_, _, _, _, _) =>
    case Cancel(_) =>
    case ReleaseExpiredRestrictions =>
    case RevokeExpiredSanctions =>
      if s.status != Active && SomeActive(s.sanctions) {
        var i :| 0 <= i < |s.sanctions| && s.sanctions[i].active;
        assert t.sanctions[i].active || Ended(s.until, clock);
      }
  }

  /** Over any run: a student has at most one active sanction, status and sanctions agree, and a
      banned student holds no confirmed reservation that could still be cancelled. */
  lemma {:induction false} BannedStudentsHoldNothing(states: seq<Student>, events: seq<Event>, read: seq<Millis>,
                                                     times: seq<Millis>, settings: Settings, i: nat)
    requires ValidRun(states, events, read, times, settings) && i < |states|
    requires Agrees(states[0], times[0]) && NothingLeft(states[0], settings, times[0])
    ensures Agrees(states[i], times[i]) && NothingLeft(states[i], settings, times[i])
  {
    if i > 0 {
      BannedStudentsHoldNothing(states, events, read, times, settings, i - 1);
      assert Commits(states, events, read, times, settings, i - 1);
      TimePasses(states[i - 1], settings, times[i - 1], times[i]);
      StepKeeps(states[i - 1], settings, events[i - 1], read[i - 1], times[i]);
    }
  }

  ghost predicate Exact(s: Student) { s.status == Active <==> !SomeActive(s.sanctions) }

  predicate Maintenance(e: Event) { e.ReleaseExpiredRestrictions? || e.RevokeExpiredSanctions? }

  /** How many of the two maintenance jobs have had an effect since an administrator last changed the
      status or the sanctions. */
  function JobsSince(states: seq<Student>, events: seq<Event>, i: nat): nat
    requires i < |states| == |events| + 1
  {
    if i == 0 then 0
    else if Maintenance(events[i - 1]) then JobsSince(states, events, i - 1) + (if states[i] != states[i - 1] then 1 else 0)
    else if states[i].status != states[i - 1].status || states[i].sanctions != states[i - 1].sanctions then 0
    else JobsSince(states, events, i - 1)
  }

  /** What the count says: both agree, or one job has run and the other has not, or both have. */
  ghost predicate Counts(s: Student, jobs: nat) {
    && jobs <= 2
    && (Exact(s) <==> jobs != 1)
    && (jobs == 2 ==> s.status == Active)
  }

  /** Over any run: a student is active exactly when no sanction is, except when exactly one of the two
      maintenance jobs has had an effect since an administrator last changed either. */
  lemma {:induction false} ActiveIffUnsanctioned(states: seq<Student>, events: seq<Event>, read: seq<Millis>,
                                                 times: seq<Millis>, settings: Settings, i: nat)
    requires ValidRun(states, events, read, times, settings) && i < |states|
    requires Exact(states[0]) && Agrees(states[0], times[0]) && NothingLeft(states[0], settings, times[0])
    ensures JobsSince(states, events, i) <= 2
    ensures Exact(states[i]) <==> JobsSince(states, events, i) != 1
    ensures Counts(states[i], JobsSince(states, events, i))
  {
    if i > 0 {
      ActiveIffUnsanctioned(states, events, read, times, settings, i - 1);
      BannedStudentsHoldNothing(states, events, read, times, settings, i - 1);
      assert Commits(states, events, read, times, settings, i - 1);
      TimePasses(states[i - 1], settings, times[i - 1], times[i]);
      var s, e, jobs := states[i - 1], events[i - 1], JobsSince(states, events, i - 1);
      if Maintenance(e) {
        JobCounts(s, settings, e, read[i - 1], times[i], jobs);
      } else {
        ChangeCounts(s, settings, e, read[i - 1], jobs);
      }
    }
  }

  lemma ChangeCounts(s: Student, settings: Settings, e: Event, now: Millis, jobs: nat)
    requires Possible(s, e) && Counts(s, jobs) && !Maintenance(e)
    ensures var t := Next(s, settings, e, now);
            Counts(t, if t.status != s.status || t.sanctions != s.sanctions then 0 else jobs)
  {
    var t := Next(s, settings, e, now);
    if t.sanctions != s.sanctions && (e.Apply? || e.NoShowEvent?) {
      assert t.sanctions[|s.sanctions|].active;
    }
  }

  lemma JobCounts(s: Student, settings: Settings, e: Event, now: Millis, clock: Millis, jobs: nat)
    requires now <= clock && Possible(s, e) && Agrees(s, clock) && Counts(s, jobs) && Maintenance(e)
    ensures var t := Next(s, settings, e, now); Counts(t, jobs + (if t != s then 1 else 0))
  {
    if e.RevokeExpiredSanctions? {
      RevokingCounts(s, now, clock, jobs);
    }
  }

  lemma RevokingCounts(s: Student, now: Millis, clock: Millis, jobs: nat)
    requires now <= clock && Agrees(s, clock) && Counts(s, jobs)
    ensures var t := RevokeExpired(s, now); Counts(t, jobs + (if t != s then 1 else 0))
  {
    var t := RevokeExpired(s, now);
    if i :| 0 <= i < |s.sanctions| && s.sanctions[i].active {
      if Ended(s.sanctions[i].endsAt, now) {
        assert t.sanctions[i] != s.sanctions[i];
      } else {
        assert t.sanctions[i].active;
        assert t.sanctions == s.sanctions;
      }
    } else {
      assert t.sanctions == s.sanctions;
    }
  }

  /** Both jobs, in either order and at a time the student's state is right for, leave status and
      sanctions in agreement, whatever only one of them did before. */
  lemma BothJobsSettle(s: Student, now: Millis)
    requires Agrees(s, now)
    ensures Exact(RevokeExpired(ReleaseExpired(s, now), now)) && Exact(ReleaseExpired(RevokeExpired(s, now), now))
  {
    SettledByBoth(s, now);
    var released, revoked := ReleaseExpired(s, now), RevokeExpired(s, now);
    assert RevokeExpired(released, now).sanctions == revoked.sanctions;
  }

  lemma SettledByBoth(s: Student, now: Millis)
    requires Agrees(s, now)
    ensures SomeActive(RevokeExpired(s, now).sanctions) <==> ReleaseExpired(s, now).status != Active
  {
    var revoked := RevokeExpired(s, now);
    if i :| 0 <= i < |s.sanctions| && s.sanctions[i].active {
      if !Ended(s.sanctions[i].endsAt, now) { assert revoked.sanctions[i].active; }
    }
  }

  /** Only a release of all sanctions or of bans by an administrator ends a ban. */
  lemma OnlyAReleaseLiftsABan(s: Student, settings: Settings, e: Event, now: Millis)
    requires Possible(s, e) && s.status == Banned && Next(s, settings, e, now).status != Banned
    ensures e == Release(Allowed, All) || e == Release(Allowed, Ban)
  {
  }

  /** A reservation changes only by its own cancellation or no-show, or with a ban while it can still be
      cancelled; a no-show needs a period that is over, and a new reservation an open one and a student
      who is neither banned nor restricted. */
  lemma HowReservationsChange(s: Student, settings: Settings, e: Event, now: Millis, r: Id)
    requires Possible(s, e) && r in Next(s, settings, e, now).reservations
    ensures var after := Next(s, settings, e, now).reservations[r];
            if r !in s.reservations then
              && e.Create? && e.id == r && after == Reservation(e.date, e.period, Confirmed)
              && WindowState(EffectiveSetting(settings, e.date, e.period), e.date, now) == Open
              && s.status != Banned && s.status != ShadowBanned && (s.status == Restricted ==> Ended(s.until, now))
            else if after == s.reservations[r] then true
            else
              && s.reservations[r].status == Confirmed && after == s.reservations[r].(status := after.status)
              && (after.status == NoShow ==>
                    && e.NoShowEvent? && e.id == r && !Later(s.reservations[r].date, DayText(Today(now)))
                    && StoredSetting(settings, after.date, after.period).Some?
                    && WindowState(StoredSetting(settings, after.date, after.period).value, after.date, now) == Closed)
              && (after.status == Cancelled ==>
                    || e == Cancel(r)
                    || (Next(s, settings, e, now).status == Banned && Cancellable(settings, s.reservations[r], now)))
  {
    if e.NoShowEvent? && e.id == r {
      assert !Cancellable(settings, s.reservations[r].(status := NoShow), now);
    }
  }

  /** A ban and a no-show leave exactly the reservations that could not be cancelled any more. */
  lemma BansCancelWhatTheyCan(s: Student, settings: Settings, e: Event, now: Millis, r: Id)
    requires Possible(s, e) && r in s.reservations && Cancellable(settings, s.reservations[r], now)
    requires Next(s, settings, e, now).status == Banned && s.status != Banned
    ensures Next(s, settings, e, now).reservations[r].status != Confirmed
  {
  }
}
