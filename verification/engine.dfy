/** The engine as a state machine: the requests that write state, applied one
    after another.  Listings only read, so they are not steps here. */
module Engine {
  import opened Domain
  import opened Appointments
  import opened Notifications

  datatype Request =
    | Book(caller: int, providerId: int, date: int, now: int)
    | Cancel(caller: int, id: int, now: int)
    | MarkNotificationRead(id: int)

  /** One request, whatever its reply. */
  function Apply(s: State, req: Request, formatDate: int -> string): (t: State)
    requires Valid(s)
    ensures Valid(t)
    ensures t.users == s.users
  {
    match req
    case Book(caller, providerId, date, now) =>
      StorePreservesValid(s, caller, providerId, date, now, formatDate);
      Store(s, caller, providerId, date, now, formatDate).state
    case Cancel(caller, id, now) =>
      DeletePreservesValid(s, caller, id, now);
      Delete(s, caller, id, now).state
    case MarkNotificationRead(id) =>
      MarkReadPreservesValid(s, id);
      MarkRead(s, id).0
  }

  /** Requests applied in order, sequentially. */
  function Run(s: State, reqs: seq<Request>, formatDate: int -> string): (t: State)
    requires Valid(s)
    ensures Valid(t)
    decreases |reqs|
  {
    if |reqs| == 0 then s
    else Run(Apply(s, reqs[0], formatDate), reqs[1..], formatDate)
  }

  /** The job log is append-only: no request removes or rewrites a job. */
  lemma {:induction false} RunOnlyAppendsJobs(s: State, reqs: seq<Request>, formatDate: int -> string)
    requires Valid(s)
    ensures s.jobs <= Run(s, reqs, formatDate).jobs
    decreases |reqs|
  {
    if |reqs| > 0 {
      var t := Apply(s, reqs[0], formatDate);
      RunOnlyAppendsJobs(t, reqs[1..], formatDate);
    }
  }
}
