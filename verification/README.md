# GoBarber booking engine in Dafny

This project models the part of the GoBarber back end that books and cancels
appointments with service providers and keeps the providers' notification
inboxes. That is the `index`, `store` and `delete` actions of
`AppointmentController` and the `index` and `update` actions of
`NotificationController`. The model is a small state machine. A `State`
holds the users (read only), the appointment rows, the notification
documents, and a log of the jobs handed to the queue. Every action is a pure
function of the state:

- Booking (`Appointments.Store`) and cancelling (`Appointments.Delete`) take
  the clock reading `now` in integer milliseconds. They return a `Step`: the
  state after the request plus the reply. The reply is either a value or one
  of the controllers' error responses (`Domain.Error`).
- The schedule listing (`Appointments.ListAppointments`) reads no clock and
  changes nothing, so it returns the page of rows.
- The inbox (`Notifications.Inbox`) reads no clock and changes nothing. It
  returns a `Result`: the rows, or the error for a non-provider.
- Mark-as-read (`Notifications.MarkRead`) reads no clock. It returns the new
  state together with the updated record, or with nothing when the id is
  unknown.

Modules:

- `Time`: the hour floor that `startOfHour` does, `subHours` and `isBefore`.
- `Seqs`: generic filter, stable insertion sort, LIMIT/OFFSET window and
  first-match lookup. The queries are built from these.
- `Domain`: the records and the state invariant `Valid`. `Valid` says three
  things: at most one active appointment per (provider, hour), every
  appointment is on a whole hour, and identifiers are unique and below the
  next identifier the database would hand out.
- `Appointments`: the schedule listing, booking and cancellation.
- `Notifications`: the inbox and mark-as-read.
- `Engine`: the state-changing requests applied in sequence.

In several places the code does something other than the obvious reading.
The model follows the code:

- A booking whose hour start equals `now` is accepted. Only a strictly
  earlier hour is refused as past.
- A cancellation at exactly `date - 2h` is accepted. Only `date - 2h`
  strictly before `now` is refused.
- `delete` never looks at `canceled_at`. Cancelling an already-cancelled
  appointment inside the window succeeds again. It overwrites `canceled_at`
  and enqueues a second `CancellationMail` job
  (`Appointments.CancelTwiceEnqueuesTwice`).
- `delete` on an unknown id reads a field of `null`. That is an uncaught
  exception, answered with status 500, and modelled as `InternalError` with
  the state unchanged. There is no separate not-found reply.
- `store` by a caller id that has no user row passes the role check, because
  such a caller is not a provider. The insert then violates the foreign key
  from `appointments.user_id` to `users.id` (lines 10-16 of
  `backend/src/database/migrations/20200213175407-create-appointments.js`). The request fails with status 500 and nothing is written. The
  model replies `InternalError` with the state unchanged.
- The schema check in `store` calls `isValid` without awaiting it, so it
  never rejects. The model has no validation error.
- `update` does no ownership check. Any caller can mark any notification as
  read.
- Re-cancelling an already-cancelled appointment does not free its hour
  again, because another client may have booked that hour since. So
  `Appointments.CancelFreesSlot` requires the appointment to be active.

## Model

| member | source | states |
|---|---|---|
| Time.FloorHour | backend/src/app/controllers/AppointmentController.js:81 | The hour start of an instant is a multiple of 3 600 000 ms, is at most the instant, and is more than the instant minus one hour. |
| Time.FloorHourUnique | backend/src/app/controllers/AppointmentController.js:81 | Any whole hour `h` with `h <= t < h + 1h` is the hour start of `t`, so the floor is exactly the hour containing `t`. |
| Time.FloorHourSameHour | backend/src/app/controllers/AppointmentController.js:81-95 | Two requested dates in the same clock hour normalise to the same slot. |
| Seqs.Filter | backend/src/app/controllers/AppointmentController.js:19 | The WHERE filter returns only matching rows. Each matching row appears as often as in the input, and no other row appears. |
| Seqs.SortBy | backend/src/app/controllers/AppointmentController.js:20 | ORDER BY returns a permutation of its input that is sorted by the key. |
| Seqs.Window | backend/src/app/controllers/AppointmentController.js:22-23 | LIMIT/OFFSET returns the `limit` rows starting at `offset`, or fewer at the end of the list, each taken from the input. |
| Seqs.FirstIndex | backend/src/app/controllers/AppointmentController.js:131 | A lookup returns the first position that matches, or reports that no position matches. |
| Appointments.Schedule | backend/src/app/controllers/AppointmentController.js:18-20 | The full listing contains exactly the caller's active appointments, with their multiplicities, in ascending date order. |
| Appointments.ListAppointments | backend/src/app/controllers/AppointmentController.js:14-41 | Page p is exactly the LIMIT 20 OFFSET (p-1)*20 slice of the full listing. It holds min(20, n - (p-1)*20) rows, where n is the length of the full listing, and none when the offset is past the end. Row i is entry (p-1)*20+i of the full listing. Each row is an active appointment of the caller, and rows are in ascending date order. |
| Appointments.EveryActiveAppointmentIsListed | backend/src/app/controllers/AppointmentController.js:18-23 | Every active appointment of the caller appears on some page. |
| Appointments.Store | backend/src/app/controllers/AppointmentController.js:43-127 | The checks run in a fixed order: caller is a provider, target is not a provider, hour start before `now`, slot held. Each fails exactly under its condition, and a failure changes nothing. When every check passes but the caller has no user row, the insert breaks the foreign key: the reply is InternalError and nothing changes. Success appends one active appointment for (caller, provider) at the hour start under the next appointment id. It also appends one unread notification for the provider under the next notification id, whose text is built from the caller's name and the hour. Both id counters advance by one, and nothing else changes. |
| Appointments.StorePreservesValid | backend/src/app/controllers/AppointmentController.js:89-108 | Booking keeps the invariant: at most one active appointment per (provider, hour), whole hours, unique ids. |
| Appointments.SecondBookingRejected | backend/src/app/controllers/AppointmentController.js:89-101 | After a successful booking, another booking of the same provider in the same hour, by a non-provider while the hour is not past, fails as unavailable. |
| Appointments.FindAppointment | backend/src/app/controllers/AppointmentController.js:131-144 | Looking up by primary key finds the first row with that id, or reports that no row has it. |
| Appointments.Delete | backend/src/app/controllers/AppointmentController.js:129-180 | An unknown id fails. A caller other than the booker is refused at any time. The booker succeeds exactly when `now <= date - 2h`, which is the window check of lines 158-169. Success sets only that appointment's `canceled_at` to `now` and appends one CancellationMail job carrying the cancelled appointment. Every failure leaves the state unchanged. |
| Appointments.DeletePreservesValid | backend/src/app/controllers/AppointmentController.js:172-177 | Cancelling keeps the invariant. |
| Appointments.CancelFreesSlot | backend/src/app/controllers/AppointmentController.js:89-101 | Once an active appointment is cancelled, any existing non-provider client can book the same provider and hour again while it is not past. |
| Appointments.CancelTwiceEnqueuesTwice | backend/src/app/controllers/AppointmentController.js:147-177 | A second cancellation of the same appointment inside the window succeeds again, restamps `canceled_at` and leaves two new jobs in the log. |
| Notifications.NewestFirst | backend/src/app/controllers/NotificationController.js:18-21 | The unlimited inbox contains exactly the caller's notifications, with their multiplicities, newest first. |
| Notifications.Inbox | backend/src/app/controllers/NotificationController.js:5-24 | A non-provider is refused. A provider gets min(20, n) of its own notifications, where n is how many it has. They are sorted newest first and form a prefix of its newest-first list. |
| Notifications.InboxKeepsNewest | backend/src/app/controllers/NotificationController.js:18-22 | Any of the caller's notifications left out by the cap is no newer than every one shown. |
| Notifications.FindNotification | backend/src/app/controllers/NotificationController.js:29-33 | Looking up by id finds the first document with that id, or reports that none has it. |
| Notifications.MarkRead | backend/src/app/controllers/NotificationController.js:27-36 | With the id present, the result is the updated record: `read` is set, no other field changes, and no other notification or store changes. With the id absent, the result is null and nothing changes. |
| Notifications.MarkReadIdempotent | backend/src/app/controllers/NotificationController.js:29-33 | Marking read twice gives the same state and record as marking once. |
| Notifications.MarkReadPreservesValid | backend/src/app/controllers/NotificationController.js:29-33 | Marking read keeps the invariant. |
| Engine.Apply | backend/src/app/controllers/AppointmentController.js:43-180 | Any one booking, cancellation or mark-read request keeps the invariant and never changes the users. Mark-read is the `update` action at lines 27-36 of backend/src/app/controllers/NotificationController.js. |
| Engine.Run | backend/src/app/controllers/AppointmentController.js:89-108 | Under sequential execution, every sequence of requests keeps the invariant, in particular at most one active appointment per (provider, hour). |
| Engine.RunOnlyAppendsJobs | backend/src/app/controllers/AppointmentController.js:177 | The job log is append-only: the jobs before a run are a prefix of the jobs after it. |

## Left out

- HTTP status codes, `res.json` and the error middleware of `backend/src/app.js`. Replies are `Result` values, and an uncaught exception is `InternalError`.
- Input validation with Yup. Because of the missing `await` it never rejects. A missing or malformed `provider_id` or `date` is not modelled: `date` is an integer instant and `provider_id` an integer.
- The notification text. The date-fns rendering of the hour in the Portuguese locale is the parameter `formatDate` of `Appointments.Store`. The text is built once from the client's name and the hour.
- Local time zones. `startOfHour` is modelled as a floor to a UTC hour. Zones whose offset is not a whole hour are not covered.
- The wall clock. `now` is a parameter, and each action reads it once, as if the two `new Date()` calls in `delete` gave the same instant.
- The queue worker in `backend/src/lib/Queue.js`: bee-queue, Redis, `process` and failure handling. Enqueueing is appending to the job log. The failure handler is registered under the misspelt event `'faield'`, so it is never attached. The CancellationMail handler is not part of this model.
- Failures of the databases or the queue, such as Redis being unreachable after the cancellation is saved or MongoDB failing after the appointment is inserted. These are partial writes the model does not represent.
- The concurrent double-booking race. The check and the insert in `store` are not atomic, and the appointments migration declares no unique index. Uniqueness is proved only for sequential execution (`Engine.Run`). Nothing is claimed about concurrent requests.
- The joined provider and user profiles (name, e-mail, avatar), and the `past` and `cancelable` attributes that the listing selects. The Appointment and User model files are not part of this model.
- Appointments.ListAppointments: requires page >= 1. A smaller page gives a negative OFFSET, whose outcome depends on the database, and the database configuration is not part of this model.
- Appointments.Schedule: rows with equal dates keep their insertion order. The database leaves the order of ties unspecified. `Notifications.NewestFirst` does the same for equal `createdAt`.
- Identifiers. Appointment ids and notification ids are counters in the state. MongoDB ObjectIds, and the cast error for a malformed id in `update`, are not modelled. The `updatedAt` timestamp that `update` refreshes is not modelled either.
- JWT verification (`backend/src/app/middlewares/auth.js`), upload file names (`backend/src/config/multer.js`), connection setup (`backend/src/database/index.js`) and the provider listing (`backend/src/app/controllers/ProviderController.js`), which is a plain query with no logic.
