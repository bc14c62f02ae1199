/** The notification controller: a provider's inbox, newest first and capped,
    and marking one notification as read. */
module Notifications {
  import opened Seqs
  import opened Domain

  /** Most notifications the inbox returns. */
  const InboxLimit: nat := 20

  /** Sorting ascending on this key puts the newest notification first. */
  function NewestKey(n: Notification): int
  {
    -n.createdAt
  }

  /** The row filter of the inbox: addressed to `caller`. */
  predicate AddressedTo(caller: int, n: Notification)
  {
    n.user == caller
  }

  /** All of the caller's notifications, newest first, without the cap. */
  function NewestFirst(s: State, caller: int): (r: seq<Notification>)
    ensures forall i, j :: 0 <= i < j < |r| ==> r[i].createdAt >= r[j].createdAt
    ensures forall n :: multiset(r)[n] == (if AddressedTo(caller, n) then multiset(s.notifications)[n] else 0)
    ensures forall n :: n in r ==> n in s.notifications && AddressedTo(caller, n)
  {
    var mine := Filter(s.notifications, (n: Notification) => AddressedTo(caller, n));
    var sorted := SortBy(mine, NewestKey);
    assert forall n :: n in sorted ==> n in mine by {
      forall n | n in sorted ensures n in mine {
        assert multiset(sorted)[n] > 0;
      }
    }
    assert forall n :: n in mine ==> n in s.notifications by {
      forall n | n in mine ensures n in s.notifications {
        assert multiset(mine)[n] > 0;
      }
    }
    sorted
  }

  /** `index`: only a provider may read an inbox; it gets the first twenty of
      its notifications, newest first. */
  function Inbox(s: State, caller: int): (r: Result<seq<Notification>>)
    ensures r.Err? <==> !IsProvider(s, caller)
    ensures r.Err? ==> r.error == OnlyProviders
    ensures r.Ok? ==> |r.value| == Min(InboxLimit, |NewestFirst(s, caller)|)
    ensures r.Ok? ==> r.value == NewestFirst(s, caller)[..|r.value|]
    ensures r.Ok? ==> forall n :: n in r.value ==> n in s.notifications && AddressedTo(caller, n)
    ensures r.Ok? ==> forall i, j :: 0 <= i < j < |r.value| ==> r.value[i].createdAt >= r.value[j].createdAt
  {
    if !IsProvider(s, caller) then Err(OnlyProviders)
    else Ok(Window(NewestFirst(s, caller), 0, InboxLimit))
  }

  /** The cap drops only the oldest: a notification of the caller missing from
      the inbox is no newer than anything shown. */
  lemma InboxKeepsNewest(s: State, caller: int, n: Notification)
    requires IsProvider(s, caller)
    requires n in s.notifications && AddressedTo(caller, n)
    requires n !in Inbox(s, caller).value
    ensures forall m :: m in Inbox(s, caller).value ==> n.createdAt <= m.createdAt
  {
  }

  /** `findById`. */
  function FindNotification(notes: seq<Notification>, id: int): (r: Option<nat>)
    ensures r.Some? ==> IsFirst(notes, NotificationHasId(id), r.value)
    ensures r.None? ==> forall k :: 0 <= k < |notes| ==> notes[k].id != id
  {
    FirstIndex(notes, NotificationHasId(id))
  }

  /** `update`: set `read` on notification `id` and return the updated record,
      or return nothing and change nothing when no notification has that id.
      Any caller may do this; the controller checks no ownership. */
  function MarkRead(s: State, id: int): (r: (State, Option<Notification>))
    ensures r.1.None? <==> forall k :: 0 <= k < |s.notifications| ==> s.notifications[k].id != id
    ensures r.1.None? ==> r.0 == s
    ensures forall i :: IsFirst(s.notifications, NotificationHasId(id), i) ==>
      && |r.0.notifications| == |s.notifications|
      && r.1 == Some(r.0.notifications[i])
      && r.0.notifications[i].read
      && r.0.notifications[i].(read := s.notifications[i].read) == s.notifications[i]
      && (forall k :: 0 <= k < |s.notifications| && k != i ==> r.0.notifications[k] == s.notifications[k])
    ensures r.0.appointments == s.appointments && r.0.jobs == s.jobs && r.0.users == s.users
    ensures r.0.nextAppointmentId == s.nextAppointmentId && r.0.nextNotificationId == s.nextNotificationId
  {
    match FindNotification(s.notifications, id)
    case None => (s, None)
    case Some(i) =>
      var updated := s.notifications[i].(read := true);
      (s.(notifications := s.notifications[i := updated]), Some(updated))
  }

  /** Marking a notification read twice is the same as marking it once. */
  lemma MarkReadIdempotent(s: State, id: int)
    ensures MarkRead(MarkRead(s, id).0, id) == MarkRead(s, id)
  {
    var (t, rec) := MarkRead(s, id);
    if rec.Some? {
      var i := FindNotification(s.notifications, id).value;
      assert IsFirst(t.notifications, NotificationHasId(id), i);
      var (u, rec2) := MarkRead(t, id);
      assert u.notifications == t.notifications;
    }
  }

  /** `update` keeps the state valid: identifiers are untouched. */
  lemma MarkReadPreservesValid(s: State, id: int)
    requires Valid(s)
    ensures Valid(MarkRead(s, id).0)
  {
  }
}
