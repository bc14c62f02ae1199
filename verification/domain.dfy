/** The records the booking engine reads and writes: users (read only),
    appointments (the relational table), notifications (the document store)
    and the log of jobs handed to the queue. */
module Domain {
  import opened Seqs
  import opened Time

  /** A user as the controllers see it; `provider` is the service-provider flag. */
  datatype User = User(name: string, provider: bool)

  /** A row of the appointments table.  `date` is always a whole hour;
      `canceledAt` is None while the appointment is active. */
  datatype Appointment = Appointment(
    id: nat,
    userId: int,
    providerId: int,
    date: int,
    canceledAt: Option<int>,
    createdAt: int)

  /** A notification document addressed to the provider `user`. */
  datatype Notification = Notification(
    id: nat,
    content: string,
    user: int,
    read: bool,
    createdAt: int)

  /** A job handed to the queue: the handler key and the appointment snapshot. */
  datatype Job = Job(key: string, payload: Appointment)

  /** Key under which the cancellation e-mail handler is registered. */
  const CancellationMailKey: string := "CancellationMail"

  /** Everything the engine touches.  Users are keyed by id; the two counters
      stand for the identifiers the databases hand out on insert. */
  datatype State = State(
    users: map<int, User>,
    appointments: seq<Appointment>,
    notifications: seq<Notification>,
    jobs: seq<Job>,
    nextAppointmentId: nat,
    nextNotificationId: nat)

  /** The failures a request can end in, one per error response of the controllers.
      InternalError is an uncaught exception, answered with status 500. */
  datatype Error =
    | ProviderCannotBook
    | NotAProvider
    | PastDate
    | DateNotAvailable
    | NoPermission
    | TooLateToCancel
    | OnlyProviders
    | InternalError

  datatype Result<+T> = Ok(value: T) | Err(error: Error)

  /** The state after a request together with the reply sent back. */
  datatype Step<+T> = Step(state: State, reply: Result<T>)

  /** The lookup predicates of `findByPk` and `findById`. */
  function AppointmentHasId(id: int): Appointment -> bool
  {
    (a: Appointment) => a.id == id
  }

  function NotificationHasId(id: int): Notification -> bool
  {
    (n: Notification) => n.id == id
  }

  /** `User.findOne({ where: { id, provider: true } })` finds a row. */
  predicate IsProvider(s: State, id: int)
  {
    id in s.users && s.users[id].provider
  }

  predicate Active(a: Appointment)
  {
    a.canceledAt.None?
  }

  /** `a` is an active appointment holding `provider` at `hour`. */
  predicate Holds(a: Appointment, provider: int, hour: int)
  {
    Active(a) && a.providerId == provider && a.date == hour
  }

  /** At most one active appointment per (provider, hour). */
  predicate SlotsUnique(appts: seq<Appointment>)
  {
    forall i, j :: 0 <= i < j < |appts| && Active(appts[i]) && Active(appts[j]) ==>
      appts[i].providerId != appts[j].providerId || appts[i].date != appts[j].date
  }

  predicate AppointmentIdsFresh(appts: seq<Appointment>, next: nat)
  {
    && (forall i :: 0 <= i < |appts| ==> appts[i].id < next)
    && (forall i, j :: 0 <= i < j < |appts| ==> appts[i].id != appts[j].id)
  }

  predicate NotificationIdsFresh(notes: seq<Notification>, next: nat)
  {
    && (forall i :: 0 <= i < |notes| ==> notes[i].id < next)
    && (forall i, j :: 0 <= i < j < |notes| ==> notes[i].id != notes[j].id)
  }

  /** Every appointment is booked for a whole hour. */
  predicate WholeHours(appts: seq<Appointment>)
  {
    forall i :: 0 <= i < |appts| ==> appts[i].date % HourMs == 0
  }

  /** The invariant every reachable state keeps under sequential execution. */
  predicate Valid(s: State)
  {
    && SlotsUnique(s.appointments)
    && WholeHours(s.appointments)
    && AppointmentIdsFresh(s.appointments, s.nextAppointmentId)
    && NotificationIdsFresh(s.notifications, s.nextNotificationId)
  }
}
