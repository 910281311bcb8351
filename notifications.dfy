/** The notification tables: `Notification` rows addressed to a recipient,
    the three owner-scoped endpoints over them (list, mark read, unread
    count), and what happens to the rows when a referenced user, batch or
    payment is deleted. `AdminNotification` has the same columns, with
    `admin` in the place of `recipient`, and is a second `NotificationTable`. */
module Notifications {
  import opened Common

  datatype Notification = Notification(
    id: Id,
    recipient: Id,
    notificationType: string,
    title: string,
    message: string,
    relatedUser: Option<Id>,
    relatedBatch: Option<Id>,
    relatedPayment: Option<Id>,
    isRead: bool,
    createdAt: int)

  const TitleMaxLength: nat := 200
  const TypeMaxLength: nat := 50

  /** The row fits its varchar columns. */
  predicate WellFormed(n: Notification) {
    |n.title| <= TitleMaxLength && |n.notificationType| <= TypeMaxLength
  }

  // ---------------------------------------------------------------------------
  // Queries (NotificationListView.get, UnreadNotificationCountView.get)

  /** `Meta.ordering = ['-created_at']`: newest first. */
  predicate NewestFirst(s: seq<Notification>) {
    forall i, j :: 0 <= i < j < |s| ==> s[i].createdAt >= s[j].createdAt
  }

  /** `Notification.objects.filter(recipient=user)`, in the model's ordering:
      exactly the user's rows, each as often as stored, newest first. */
  function ListFor(rows: seq<Notification>, user: Id): (r: seq<Notification>)
    ensures forall n :: n in r <==> n in rows && n.recipient == user
    ensures multiset(r) == multiset(Filter(rows, (n: Notification) => n.recipient == user))
    ensures NewestFirst(r)
  {
    var mine := Filter(rows, (n: Notification) => n.recipient == user);
    var r := SortBy(mine, (n: Notification) => -n.createdAt);
    assert forall n :: n in r <==> n in multiset(r);
    assert forall n :: n in mine <==> n in multiset(mine);
    r
  }

  predicate IsUnreadFor(n: Notification, user: Id) {
    n.recipient == user && !n.isRead
  }

  /** `filter(recipient=user, is_read=False).count()`: zero exactly when
      none of the user's rows is unread, and never more than the rows. */
  function UnreadCount(rows: seq<Notification>, user: Id): (r: nat)
    ensures r <= |rows|
    ensures r == 0 <==> forall i :: 0 <= i < |rows| ==> !IsUnreadFor(rows[i], user)
  {
    CountZero(rows, (n: Notification) => IsUnreadFor(n, user));
    Count(rows, (n: Notification) => IsUnreadFor(n, user))
  }

  /** A new row raises its recipient's unread count by one when it is unread,
      and leaves every other count unchanged. */
  lemma UnreadAfterCreate(rows: seq<Notification>, n: Notification, user: Id)
    ensures UnreadCount(rows + [n], user) ==
      UnreadCount(rows, user) + (if IsUnreadFor(n, user) then 1 else 0)
  {
    FilterAppend(rows, n, (m: Notification) => IsUnreadFor(m, user));
  }

  /** The unread count never exceeds the number of the user's notifications. */
  lemma {:induction false} UnreadWithinList(rows: seq<Notification>, user: Id)
    ensures UnreadCount(rows, user) <= |ListFor(rows, user)|
  {
    var mine := Filter(rows, (n: Notification) => n.recipient == user);
    FilterFuse(rows, (n: Notification) => n.recipient == user, (n: Notification) => !n.isRead,
               (n: Notification) => IsUnreadFor(n, user));
    assert |ListFor(rows, user)| == |mine| by {
      assert |multiset(ListFor(rows, user))| == |multiset(mine)|;
    }
  }

  // ---------------------------------------------------------------------------
  // MarkNotificationReadView.post

  /** `Notification.objects.get(id=id, recipient=user)`: the position of the
      caller's row with that id, or None when the id is absent or addressed
      to someone else. */
  function FindOwned(rows: seq<Notification>, id: Id, user: Id): (r: Option<nat>)
    ensures r.Some? ==> r.value < |rows| && rows[r.value].id == id && rows[r.value].recipient == user
    ensures r.None? ==> forall i :: 0 <= i < |rows| ==> !(rows[i].id == id && rows[i].recipient == user)
  {
    if rows == [] then None
    else if rows[0].id == id && rows[0].recipient == user then Some(0)
    else
      match FindOwned(rows[1..], id, user)
      case None => None
      case Some(k) => Some(k + 1)
  }

  /** The table after `is_read = True` on row `i`. */
  function MarkedAt(rows: seq<Notification>, i: nat): seq<Notification>
    requires i < |rows|
  {
    rows[i := rows[i].(isRead := true)]
  }

  /** Marking a row read lowers its recipient's unread count by one when it
      was unread, and leaves every count unchanged otherwise. */
  lemma MarkReadCounts(rows: seq<Notification>, i: nat, user: Id)
    requires i < |rows|
    ensures UnreadCount(MarkedAt(rows, i), user) ==
      UnreadCount(rows, user) - (if IsUnreadFor(rows[i], user) then 1 else 0)
  {
    CountUpdate(rows, i, rows[i].(isRead := true), (n: Notification) => IsUnreadFor(n, user));
  }

  /** Marking the caller's row `id` read lowers the caller's unread count by
      exactly one when that row was unread, and leaves any other user's
      count unchanged. */
  lemma MarkOwnedCounts(rows: seq<Notification>, id: Id, user: Id, other: Id)
    requires FindOwned(rows, id, user).Some?
    requires other != user
    ensures var i := FindOwned(rows, id, user).value;
      UnreadCount(MarkedAt(rows, i), user) == UnreadCount(rows, user) - (if rows[i].isRead then 0 else 1)
    ensures var i := FindOwned(rows, id, user).value;
      UnreadCount(MarkedAt(rows, i), other) == UnreadCount(rows, other)
  {
    var i := FindOwned(rows, id, user).value;
    MarkReadCounts(rows, i, user);
    MarkReadCounts(rows, i, other);
  }

  /** Marking a row read does not change which row the lookup finds. */
  lemma {:induction false} FindOwnedAfterMark(rows: seq<Notification>, i: nat, id: Id, user: Id)
    requires i < |rows|
    ensures FindOwned(MarkedAt(rows, i), id, user) == FindOwned(rows, id, user)
  {
    if i > 0 {
      assert MarkedAt(rows, i)[1..] == MarkedAt(rows[1..], i - 1);
      FindOwnedAfterMark(rows[1..], i - 1, id, user);
    }
  }

  /** A second mark-read of the caller's row finds the same row again (200,
      not 404), leaves it read, and changes nothing more. */
  lemma MarkReadIdempotent(rows: seq<Notification>, id: Id, user: Id)
    requires FindOwned(rows, id, user).Some?
    ensures var i := FindOwned(rows, id, user).value;
      && FindOwned(MarkedAt(rows, i), id, user) == Some(i)
      && MarkedAt(MarkedAt(rows, i), i) == MarkedAt(rows, i)
      && MarkedAt(rows, i)[i].isRead
  {
    FindOwnedAfterMark(rows, FindOwned(rows, id, user).value, id, user);
  }

  // ---------------------------------------------------------------------------
  // on_delete behaviour of the foreign keys

  /** SET_NULL of `related_user` for the deleted user. */
  function ClearUser(n: Notification, user: Id): Notification {
    if n.relatedUser == Some(user) then n.(relatedUser := None) else n
  }

  function ClearBatch(n: Notification, batch: Id): Notification {
    if n.relatedBatch == Some(batch) then n.(relatedBatch := None) else n
  }

  function ClearPayment(n: Notification, payment: Id): Notification {
    if n.relatedPayment == Some(payment) then n.(relatedPayment := None) else n
  }

  /** Deleting a user: the rows addressed to them go (CASCADE on `recipient`),
      every other row stays in place with its `related_user` cleared if it
      pointed at them (SET_NULL). */
  function AfterUserDeleted(rows: seq<Notification>, user: Id): (r: seq<Notification>)
    ensures |r| == |rows| - Count(rows, (n: Notification) => n.recipient == user)
    ensures forall i :: 0 <= i < |r| ==> r[i].recipient != user && r[i].relatedUser != Some(user)
    ensures forall n :: n in rows && n.recipient != user ==> ClearUser(n, user) in r
    ensures forall i :: 0 <= i < |r| ==> exists n :: n in rows && n.recipient != user && r[i] == ClearUser(n, user)
  {
    var kept := Filter(rows, (n: Notification) => n.recipient != user);
    CountComplement(rows, (n: Notification) => n.recipient == user, (n: Notification) => n.recipient != user);
    var r := Map(kept, (n: Notification) => ClearUser(n, user));
    forall n | n in rows && n.recipient != user ensures ClearUser(n, user) in r {
      var k :| 0 <= k < |kept| && kept[k] == n;
      assert r[k] == ClearUser(n, user);
    }
    r
  }

  /** Deleting a batch: every row survives, none keeps pointing at it, and no
      other field changes. */
  function AfterBatchDeleted(rows: seq<Notification>, batch: Id): (r: seq<Notification>)
    ensures |r| == |rows|
    ensures forall i :: 0 <= i < |r| ==> r[i].relatedBatch != Some(batch)
    ensures forall i :: 0 <= i < |r| && rows[i].relatedBatch == Some(batch) ==> r[i].relatedBatch.None?
    ensures forall i :: 0 <= i < |r| ==> r[i].(relatedBatch := rows[i].relatedBatch) == rows[i]
    ensures forall i :: 0 <= i < |r| && rows[i].relatedBatch != Some(batch) ==> r[i] == rows[i]
  {
    seq(|rows|, i requires 0 <= i < |rows| => ClearBatch(rows[i], batch))
  }

  /** Deleting a payment transaction: as for a batch, on `related_payment`. */
  function AfterPaymentDeleted(rows: seq<Notification>, payment: Id): (r: seq<Notification>)
    ensures |r| == |rows|
    ensures forall i :: 0 <= i < |r| ==> r[i].relatedPayment != Some(payment)
    ensures forall i :: 0 <= i < |r| && rows[i].relatedPayment == Some(payment) ==> r[i].relatedPayment.None?
    ensures forall i :: 0 <= i < |r| ==> r[i].(relatedPayment := rows[i].relatedPayment) == rows[i]
    ensures forall i :: 0 <= i < |r| && rows[i].relatedPayment != Some(payment) ==> r[i] == rows[i]
  {
    seq(|rows|, i requires 0 <= i < |rows| => ClearPayment(rows[i], payment))
  }

  /** After a user is deleted nobody can list, count or mark their
      notifications, and every other user keeps all of theirs. */
  lemma UserDeletionScope(rows: seq<Notification>, user: Id, other: Id, id: Id)
    requires other != user
    ensures ListFor(AfterUserDeleted(rows, user), user) == []
    ensures FindOwned(AfterUserDeleted(rows, user), id, user).None?
    ensures UnreadCount(AfterUserDeleted(rows, user), user) == 0
    ensures |ListFor(AfterUserDeleted(rows, user), other)| == |ListFor(rows, other)|
  {
    var r := AfterUserDeleted(rows, user);
    var isUser := (n: Notification) => n.recipient == user;
    var unread := (n: Notification) => IsUnreadFor(n, user);
    NoneAfterDeletion(r, user, isUser);
    NoneAfterDeletion(r, user, unread);
    assert |multiset(ListFor(r, user))| == 0;
    OtherUserKeepsRows(rows, user, other);
    assert |ListFor(r, other)| == |multiset(ListFor(r, other))|;
    assert |ListFor(rows, other)| == |multiset(ListFor(rows, other))|;
  }

  lemma NoneAfterDeletion(r: seq<Notification>, user: Id, p: Notification -> bool)
    requires forall i :: 0 <= i < |r| ==> r[i].recipient != user
    requires forall n :: p(n) ==> n.recipient == user
    ensures Filter(r, p) == []
  {
  }

  lemma OtherUserKeepsRows(rows: seq<Notification>, user: Id, other: Id)
    requires other != user
    ensures Count(AfterUserDeleted(rows, user), (n: Notification) => n.recipient == other) ==
            Count(rows, (n: Notification) => n.recipient == other)
  {
    var isOther := (n: Notification) => n.recipient == other;
    var notUser := (n: Notification) => n.recipient != user;
    var kept := Filter(rows, notUser);
    CountMapped(kept, (n: Notification) => ClearUser(n, user), isOther);
    FilterFuse(rows, notUser, isOther, isOther);
  }

  /** Deleting a user keeps the surviving keys in ascending order, below the
      same bound, and every surviving row within its columns. */
  lemma UserDeletionKeepsKeys(rows: seq<Notification>, user: Id, bound: Id)
    requires StrictlyAscending(rows, (n: Notification) => n.id)
    requires forall i :: 0 <= i < |rows| ==> rows[i].id < bound && WellFormed(rows[i])
    ensures StrictlyAscending(AfterUserDeleted(rows, user), (n: Notification) => n.id)
    ensures forall i :: 0 <= i < |AfterUserDeleted(rows, user)| ==>
      AfterUserDeleted(rows, user)[i].id < bound && WellFormed(AfterUserDeleted(rows, user)[i])
  {
    var notUser := (n: Notification) => n.recipient != user;
    var kept := Filter(rows, notUser);
    var r := AfterUserDeleted(rows, user);
    FilterKeepsStrict(rows, notUser, (n: Notification) => n.id);
    assert r == Map(kept, (n: Notification) => ClearUser(n, user));
    forall i | 0 <= i < |r| ensures r[i].id == kept[i].id && r[i].id < bound && WellFormed(r[i]) {
      assert kept[i] in rows;
    }
  }

  // ---------------------------------------------------------------------------
  // The table

  class NotificationTable {
    var rows: seq<Notification>
    /** The next value of the auto-increment primary key. */
    var nextId: Id

    /** Keys are issued in increasing order and never reused, and every row
        fits its columns. */
    ghost predicate Valid()
      reads this
    {
      && StrictlyAscending(rows, (n: Notification) => n.id)
      && forall i :: 0 <= i < |rows| ==> rows[i].id < nextId && WellFormed(rows[i])
    }

    constructor()
      ensures Valid() && rows == [] && nextId == 1
    {
      rows := [];
      nextId := 1;
    }

    /** `Notification.objects.create(...)`: a new unread row at the end of
        the table, with the next key and the given creation time. */
    method Create(recipient: Id, notificationType: string, title: string, message: string,
                  relatedUser: Option<Id>, relatedBatch: Option<Id>, relatedPayment: Option<Id>,
                  now: int)
      returns (n: Notification)
      requires Valid()
      requires |title| <= TitleMaxLength && |notificationType| <= TypeMaxLength
      modifies this
      ensures Valid()
      ensures n == Notification(old(nextId), recipient, notificationType, title, message,
                                relatedUser, relatedBatch, relatedPayment, false, now)
      ensures rows == old(rows) + [n]
      ensures nextId == old(nextId) + 1
    {
      n := Notification(nextId, recipient, notificationType, title, message,
                        relatedUser, relatedBatch, relatedPayment, false, now);
      rows := rows + [n];
      nextId := nextId + 1;
    }

    /** `MarkNotificationReadView.post`: `found` is the 200 answer, its
        negation the 404. Only the caller's row with that id is touched, and
        only its `is_read` flag. */
    method MarkRead(user: Id, id: Id) returns (found: bool)
      requires Valid()
      modifies this
      ensures Valid()
      ensures nextId == old(nextId)
      ensures found <==> FindOwned(old(rows), id, user).Some?
      ensures found ==> rows == MarkedAt(old(rows), FindOwned(old(rows), id, user).value)
      ensures !found ==> rows == old(rows)
    {
      var at := FindOwned(rows, id, user);
      if at.Some? {
        rows := rows[at.value := rows[at.value].(isRead := true)];
        found := true;
      } else {
        found := false;
      }
    }

    /** CASCADE on `recipient` and SET_NULL on `related_user`. */
    method OnUserDeleted(user: Id)
      requires Valid()
      modifies this
      ensures Valid()
      ensures rows == AfterUserDeleted(old(rows), user) && nextId == old(nextId)
    {
      UserDeletionKeepsKeys(rows, user, nextId);
      rows := AfterUserDeleted(rows, user);
    }

    /** SET_NULL on `related_batch`. */
    method OnBatchDeleted(batch: Id)
      requires Valid()
      modifies this
      ensures Valid()
      ensures rows == AfterBatchDeleted(old(rows), batch) && nextId == old(nextId)
    {
      rows := AfterBatchDeleted(rows, batch);
    }

    /** SET_NULL on `related_payment`. */
    method OnPaymentDeleted(payment: Id)
      requires Valid()
      modifies this
      ensures Valid()
      ensures rows == AfterPaymentDeleted(old(rows), payment) && nextId == old(nextId)
    {
      rows := AfterPaymentDeleted(rows, payment);
    }
  }
}
