/** The appointment controller: a client's paged schedule, booking a provider
    for a whole hour, and cancelling a booking at least two hours ahead.
    Booking and cancelling take the clock reading `now` as a parameter. */
module Appointments {
  import opened Seqs
  import opened Time
  import opened Domain

  /** Rows per page of the schedule listing. */
  const PageSize: nat := 20

  function DateOf(a: Appointment): int
  {
    a.date
  }

  /** The row filter of the listing: booked by `caller` and not cancelled. */
  predicate OwnActive(caller: int, a: Appointment)
  {
    a.userId == caller && Active(a)
  }

  /** The full, unpaged listing: the caller's active appointments by ascending date. */
  function Schedule(s: State, caller: int): (r: seq<Appointment>)
    ensures forall i, j :: 0 <= i < j < |r| ==> r[i].date <= r[j].date
    ensures forall a :: multiset(r)[a] == (if OwnActive(caller, a) then multiset(s.appointments)[a] else 0)
    ensures forall a :: a in r ==> a in s.appointments && OwnActive(caller, a)
  {
    var mine := Filter(s.appointments, (a: Appointment) => OwnActive(caller, a));
    var sorted := SortBy(mine, DateOf);
    assert forall a :: a in sorted ==> a in mine by {
      forall a | a in sorted ensures a in mine {
        assert multiset(sorted)[a] > 0;
      }
    }
    assert forall a :: a in mine ==> a in s.appointments by {
      forall a | a in mine ensures a in s.appointments {
        assert multiset(mine)[a] > 0;
      }
    }
    sorted
  }

  /** Rows skipped before page `page`. */
  function PageOffset(page: int): nat
    requires page >= 1
  {
    (page - 1) * PageSize
  }

  /** `index`: page `page` (counted from 1) of the caller's active appointments. */
  function ListAppointments(s: State, caller: int, page: int): (r: seq<Appointment>)
    requires page >= 1
    ensures |r| == if PageOffset(page) >= |Schedule(s, caller)| then 0
                   else Min(PageSize, |Schedule(s, caller)| - PageOffset(page))
    ensures forall a :: a in r ==> a in s.appointments && OwnActive(caller, a)
    ensures forall i, j :: 0 <= i < j < |r| ==> r[i].date <= r[j].date
    ensures forall i :: 0 <= i < |r| ==>
      PageOffset(page) + i < |Schedule(s, caller)| && r[i] == Schedule(s, caller)[PageOffset(page) + i]
  {
    Window(Schedule(s, caller), PageOffset(page), PageSize)
  }

  /** Every active appointment of the caller shows up on some page. */
  lemma EveryActiveAppointmentIsListed(s: State, caller: int, a: Appointment)
    requires a in s.appointments && a.userId == caller && Active(a)
    ensures exists page :: page >= 1 && a in ListAppointments(s, caller, page)
  {
    var full := Schedule(s, caller);
    assert multiset(s.appointments)[a] > 0;
    assert a in multiset(full);
    var k :| 0 <= k < |full| && full[k] == a;
    var q := k / PageSize;
    var page := q + 1;
    var offset := q * PageSize;
    assert offset <= k < offset + PageSize;
    var r := ListAppointments(s, caller, page);
    assert r == Window(full, offset, PageSize);
    assert r[k - offset] == a;
  }

  /** The booking notification's text.  date-fns renders the hour in the
      Portuguese locale; that rendering is the parameter `formatDate`. */
  function BookingContent(clientName: string, hour: int, formatDate: int -> string): string
  {
    "Novo agendamento de " + clientName + " para " + formatDate(hour)
  }

  /** Some active appointment already holds `provider` at `hour`. */
  predicate SlotTaken(s: State, provider: int, hour: int)
  {
    exists a :: a in s.appointments && Holds(a, provider, hour)
  }

  /** The caller may book and the target is a provider: the role checks pass. */
  predicate RolesOk(s: State, caller: int, providerId: int)
  {
    !IsProvider(s, caller) && IsProvider(s, providerId)
  }

  /** `a` is the row `store` inserts into `s`: an active appointment of `caller`
      with `providerId`, at the whole hour containing `date`, under the next id. */
  predicate Inserted(a: Appointment, s: State, caller: int, providerId: int, date: int, now: int)
  {
    && a.userId == caller && a.providerId == providerId && Active(a) && a.createdAt == now
    && a.date % HourMs == 0 && a.date <= date < a.date + HourMs
    && a.id == s.nextAppointmentId
  }

  /** `t` is `s` after booking appointment `a` for `caller` with `providerId`
      at the hour containing `date`, plus one unread notification for the provider
      under the next notification id, whose text names the caller and the hour. */
  predicate Booked(s: State, t: State, a: Appointment, caller: int, providerId: int, date: int, now: int,
                   formatDate: int -> string)
  {
    && Inserted(a, s, caller, providerId, date, now)
    && caller in s.users
    && t.appointments == s.appointments + [a]
    && |t.notifications| == |s.notifications| + 1
    && t.notifications[..|s.notifications|] == s.notifications
    && t.notifications[|s.notifications|].id == s.nextNotificationId
    && t.notifications[|s.notifications|].content == BookingContent(s.users[caller].name, a.date, formatDate)
    && t.notifications[|s.notifications|].user == providerId
    && !t.notifications[|s.notifications|].read
    && t.notifications[|s.notifications|].createdAt == now
    && t.nextAppointmentId == s.nextAppointmentId + 1
    && t.nextNotificationId == s.nextNotificationId + 1
    && t.users == s.users && t.jobs == s.jobs
  }

  /** `store`: book the hour containing `date`.  The checks run in the order
      caller-is-provider, target-not-provider, past-date, slot-taken, and a
      failed check changes nothing.  A caller id with no user row gets past
      the checks, and the insert then breaks the foreign key on `user_id`:
      the request fails and nothing is written. */
  function Store(s: State, caller: int, providerId: int, date: int, now: int,
                 formatDate: int -> string): (r: Step<Appointment>)
    ensures r.reply == Err(ProviderCannotBook) <==> IsProvider(s, caller)
    ensures r.reply == Err(NotAProvider) <==> !IsProvider(s, caller) && !IsProvider(s, providerId)
    ensures r.reply == Err(PastDate) <==> RolesOk(s, caller, providerId) && FloorHour(date) < now
    ensures r.reply == Err(DateNotAvailable) <==>
      RolesOk(s, caller, providerId) && now <= FloorHour(date) && SlotTaken(s, providerId, FloorHour(date))
    ensures r.reply.Ok? <==>
      RolesOk(s, caller, providerId) && now <= FloorHour(date) && !SlotTaken(s, providerId, FloorHour(date))
      && caller in s.users
    ensures r.reply.Err? ==> r.state == s
    ensures r.reply.Ok? ==> Booked(s, r.state, r.reply.value, caller, providerId, date, now, formatDate)
    ensures r.reply == Err(InternalError) <==>
      RolesOk(s, caller, providerId) && now <= FloorHour(date) && !SlotTaken(s, providerId, FloorHour(date))
      && caller !in s.users
  {
    if IsProvider(s, caller) then Step(s, Err(ProviderCannotBook))
    else if !IsProvider(s, providerId) then Step(s, Err(NotAProvider))
    else
      var hourStart := FloorHour(date);
      if IsBefore(hourStart, now) then Step(s, Err(PastDate))
      else if SlotTaken(s, providerId, hourStart) then Step(s, Err(DateNotAvailable))
      else if caller !in s.users then Step(s, Err(InternalError))
      else
        var appt := Appointment(s.nextAppointmentId, caller, providerId, hourStart, None, now);
        var note := Notification(s.nextNotificationId,
                                 BookingContent(s.users[caller].name, hourStart, formatDate),
                                 providerId, false, now);
        var t := s.(appointments := s.appointments + [appt],
                    nextAppointmentId := s.nextAppointmentId + 1,
                    notifications := s.notifications + [note],
                    nextNotificationId := s.nextNotificationId + 1);
        Step(t, Ok(appt))
  }

  /** `store` keeps the state valid; in particular it never creates a second
      active appointment for a (provider, hour) under sequential execution. */
  lemma StorePreservesValid(s: State, caller: int, providerId: int, date: int, now: int,
                            formatDate: int -> string)
    requires Valid(s)
    ensures Valid(Store(s, caller, providerId, date, now, formatDate).state)
  {
    var r := Store(s, caller, providerId, date, now, formatDate);
    if r.state != s {
      var t := r.state;
      var n := |s.appointments|;
      var a := t.appointments[n];
      assert t.appointments == s.appointments + [a];
      assert !SlotTaken(s, providerId, FloorHour(date));
      forall i, j | 0 <= i < j < |t.appointments| && Active(t.appointments[i]) && Active(t.appointments[j])
        ensures t.appointments[i].providerId != t.appointments[j].providerId
             || t.appointments[i].date != t.appointments[j].date
      {
        if j == n {
          assert t.appointments[i] in s.appointments;
        }
      }
    }
  }

  /** Once an hour is booked, a second booking of the same provider and hour
      by any client is refused as unavailable while the hour is not past. */
  lemma SecondBookingRejected(s: State, caller: int, providerId: int, date: int, now: int,
                              formatDate: int -> string,
                              caller2: int, date2: int, now2: int, formatDate2: int -> string)
    requires Store(s, caller, providerId, date, now, formatDate).reply.Ok?
    requires FloorHour(date2) == FloorHour(date)
    requires !IsProvider(s, caller2) && now2 <= FloorHour(date)
    ensures Store(Store(s, caller, providerId, date, now, formatDate).state,
                  caller2, providerId, date2, now2, formatDate2).reply == Err(DateNotAvailable)
  {
    var t := Store(s, caller, providerId, date, now, formatDate).state;
    var a := Store(s, caller, providerId, date, now, formatDate).reply.value;
    assert a in t.appointments;
    assert Holds(a, providerId, FloorHour(date2));
  }

  /** `findByPk`. */
  function FindAppointment(appts: seq<Appointment>, id: int): (r: Option<nat>)
    ensures r.Some? ==> IsFirst(appts, AppointmentHasId(id), r.value)
    ensures r.None? ==> forall k :: 0 <= k < |appts| ==> appts[k].id != id
  {
    FirstIndex(appts, AppointmentHasId(id))
  }

  /** `t` is `s` with the appointment at `i` cancelled at `now` (and nothing else
      changed), plus one CancellationMail job carrying the cancelled appointment `c`. */
  predicate Cancelled(s: State, t: State, i: int, now: int, c: Appointment)
    requires 0 <= i < |s.appointments|
  {
    && c == s.appointments[i].(canceledAt := Some(now))
    && |t.appointments| == |s.appointments|
    && t.appointments[i] == c
    && (forall k :: 0 <= k < |s.appointments| && k != i ==> t.appointments[k] == s.appointments[k])
    && t.jobs == s.jobs + [Job(CancellationMailKey, c)]
    && t.notifications == s.notifications && t.users == s.users
    && t.nextAppointmentId == s.nextAppointmentId && t.nextNotificationId == s.nextNotificationId
  }

  /** The cancellation window is still open: `date - 2h` is not before `now`. */
  predicate WindowOpen(a: Appointment, now: int)
  {
    now <= a.date - CancelLeadHours * HourMs
  }

  /** `delete`: the booker cancels appointment `id`.  Only the booker may, and
      only while the window is open; an appointment that is already cancelled
      is cancelled again.  An unknown id dereferences null and fails. */
  function Delete(s: State, caller: int, id: int, now: int): (r: Step<Appointment>)
    ensures r.reply.Err? ==> r.state == s
    ensures r.reply == Err(InternalError) <==> forall k :: 0 <= k < |s.appointments| ==> s.appointments[k].id != id
    ensures forall i :: IsFirst(s.appointments, AppointmentHasId(id), i) ==>
      && (r.reply == Err(NoPermission) <==> s.appointments[i].userId != caller)
      && (r.reply == Err(TooLateToCancel) <==> s.appointments[i].userId == caller && !WindowOpen(s.appointments[i], now))
      && (r.reply.Ok? <==> s.appointments[i].userId == caller && WindowOpen(s.appointments[i], now))
      && (r.reply.Ok? ==> Cancelled(s, r.state, i, now, r.reply.value))
  {
    match FindAppointment(s.appointments, id)
    case None => Step(s, Err(InternalError))
    case Some(i) =>
      var appt := s.appointments[i];
      if appt.userId != caller then Step(s, Err(NoPermission))
      else if IsBefore(SubHours(appt.date, CancelLeadHours), now) then Step(s, Err(TooLateToCancel))
      else
        var cancelled := appt.(canceledAt := Some(now));
        var t := s.(appointments := s.appointments[i := cancelled],
                    jobs := s.jobs + [Job(CancellationMailKey, cancelled)]);
        Step(t, Ok(cancelled))
  }

  /** `delete` keeps the state valid: it only ever turns an active appointment inactive. */
  lemma DeletePreservesValid(s: State, caller: int, id: int, now: int)
    requires Valid(s)
    ensures Valid(Delete(s, caller, id, now).state)
  {
  }

  /** Cancelling frees the hour: a client may book the same provider and hour again. */
  lemma CancelFreesSlot(s: State, owner: int, id: int, now: int,
                        client: int, now2: int, formatDate: int -> string)
    requires Valid(s)
    requires Delete(s, owner, id, now).reply.Ok?
    requires forall k :: 0 <= k < |s.appointments| && s.appointments[k].id == id ==> Active(s.appointments[k])
    requires !IsProvider(s, client) && client in s.users
    requires IsProvider(s, Delete(s, owner, id, now).reply.value.providerId)
    requires now2 <= Delete(s, owner, id, now).reply.value.date
    ensures
      var c := Delete(s, owner, id, now).reply.value;
      Store(Delete(s, owner, id, now).state, client, c.providerId, c.date, now2, formatDate).reply.Ok?
  {
  }

  /** `delete` never looks at `canceled_at`: a second cancellation inside the
      window succeeds and enqueues a second CancellationMail job. */
  lemma CancelTwiceEnqueuesTwice(s: State, caller: int, id: int, now: int, now2: int)
    requires Delete(s, caller, id, now).reply.Ok?
    requires now2 <= Delete(s, caller, id, now).reply.value.date - CancelLeadHours * HourMs
    ensures
      var t := Delete(s, caller, id, now).state;
      var u := Delete(t, caller, id, now2);
      && u.reply.Ok? && u.reply.value.canceledAt == Some(now2)
      && |u.state.jobs| == |s.jobs| + 2
  {
  }
}
