/** The post_save receivers that write notifications: one welcome row for a
    new user, and one row per staff user for a new batch. Both do nothing
    when the save was an update (`created` is false). The user table is an
    input snapshot, in the order the user query returns it. */
module Signals {
  import opened Common
  import opened Notifications
  import Batches

  const SignupType: string := "NEW_SIGNUP"
  const SignupTitle: string := "Welcome to the Academy!"
  const BatchCreatedType: string := "BATCH_CREATED"
  const BatchCreatedTitle: string := "New Batch Created"

  function SignupMessage(fullName: string): string {
    "Hello " + fullName + ", your account has been successfully created."
  }

  function BatchCreatedMessage(batchName: string): string {
    "A new batch '" + batchName + "' has been created."
  }

  // ---------------------------------------------------------------------------
  // create_signup_notification

  /** The welcome row written for `user`. */
  function SignupNotice(id: Id, user: User, now: int): Notification {
    Notification(id, user.id, SignupType, SignupTitle, SignupMessage(user.fullName),
                 Some(user.id), None, None, false, now)
  }

  /** The welcome row is addressed to the new user, points back at them, is
      unread, fits its columns and greets the user by name. */
  lemma SignupNoticeShape(id: Id, user: User, now: int)
    ensures var n := SignupNotice(id, user, now);
      && n.recipient == user.id && n.relatedUser == Some(user.id)
      && n.notificationType == "NEW_SIGNUP" && !n.isRead && WellFormed(n)
      && n.relatedBatch.None? && n.relatedPayment.None?
      && Contains(n.message, user.fullName)
  {
    ContainsMiddle("Hello ", user.fullName, ", your account has been successfully created.");
  }

  /** The welcome row gives the new user exactly one unread notification more
      and changes nobody else's unread count. */
  lemma SignupRaisesUnread(rows: seq<Notification>, id: Id, user: User, now: int, other: Id)
    requires other != user.id
    ensures UnreadCount(rows + [SignupNotice(id, user, now)], user.id) == UnreadCount(rows, user.id) + 1
    ensures UnreadCount(rows + [SignupNotice(id, user, now)], other) == UnreadCount(rows, other)
  {
    UnreadAfterCreate(rows, SignupNotice(id, user, now), user.id);
    UnreadAfterCreate(rows, SignupNotice(id, user, now), other);
  }

  method CreateSignupNotification(table: NotificationTable, user: User, created: bool, now: int)
    requires table.Valid()
    modifies table
    ensures table.Valid()
    ensures !created ==> table.rows == old(table.rows) && table.nextId == old(table.nextId)
    ensures created ==> table.rows == old(table.rows) + [SignupNotice(old(table.nextId), user, now)]
    ensures created ==> table.nextId == old(table.nextId) + 1
  {
    if created {
      var _ := table.Create(user.id, SignupType, SignupTitle, SignupMessage(user.fullName),
                            Some(user.id), None, None, now);
    }
  }

  // ---------------------------------------------------------------------------
  // batch_created_notification

  predicate IsStaff(u: User) {
    u.isStaff
  }

  /** `User.objects.filter(is_staff=True)`. */
  function StaffOf(users: seq<User>): seq<User> {
    Filter(users, IsStaff)
  }

  /** The row written for one staff member about a new batch. */
  function BatchNotice(id: Id, admin: Id, batch: Batches.Batch, now: int): Notification {
    Notification(id, admin, BatchCreatedType, BatchCreatedTitle, BatchCreatedMessage(batch.batchName),
                 None, Some(batch.id), None, false, now)
  }

  /** The rows the loop writes: one per admin, in order, with consecutive keys
      starting at `firstId`. */
  function FanOut(firstId: Id, admins: seq<User>, batch: Batches.Batch, now: int): (r: seq<Notification>)
    ensures |r| == |admins|
    ensures forall i :: 0 <= i < |r| ==> r[i] == BatchNotice(firstId + i, admins[i].id, batch, now)
    decreases |admins|
  {
    if admins == [] then []
    else [BatchNotice(firstId, admins[0].id, batch, now)] + FanOut(firstId + 1, admins[1..], batch, now)
  }

  /** Every fan-out row is an unread BATCH_CREATED row that points at the new
      batch, names it in its message and is addressed to a staff user. */
  lemma FanOutRows(firstId: Id, users: seq<User>, batch: Batches.Batch, now: int)
    ensures forall n :: n in FanOut(firstId, StaffOf(users), batch, now) ==>
      && n.notificationType == "BATCH_CREATED" && !n.isRead && WellFormed(n)
      && n.relatedBatch == Some(batch.id)
      && Contains(n.message, batch.batchName)
      && exists u :: u in users && u.isStaff && n.recipient == u.id
  {
    ContainsMiddle("A new batch '", batch.batchName, "' has been created.");
  }

  /** Counting the fan-out rows addressed to one user id counts the staff
      users with that id. */
  lemma {:induction false} FanOutRecipients(firstId: Id, admins: seq<User>, batch: Batches.Batch, now: int, uid: Id)
    ensures Count(FanOut(firstId, admins, batch, now), (n: Notification) => n.recipient == uid) ==
            Count(admins, (u: User) => u.id == uid)
    decreases |admins|
  {
    if admins != [] {
      FanOutRecipients(firstId + 1, admins[1..], batch, now, uid);
      var f := FanOut(firstId, admins, batch, now);
      assert f == [BatchNotice(firstId, admins[0].id, batch, now)] + FanOut(firstId + 1, admins[1..], batch, now);
      assert f[1..] == FanOut(firstId + 1, admins[1..], batch, now);
    }
  }

  /** No two users share a primary key. */
  predicate UniqueIds(users: seq<User>) {
    forall i, j :: 0 <= i < |users| && 0 <= j < |users| && users[i].id == users[j].id ==> i == j
  }

  /** With distinct user keys, the fan-out writes exactly one row for each
      staff user and none for anybody else. */
  lemma FanOutOnePerStaff(firstId: Id, users: seq<User>, batch: Batches.Batch, now: int, u: User)
    requires UniqueIds(users) && u in users
    ensures Count(FanOut(firstId, StaffOf(users), batch, now), (n: Notification) => n.recipient == u.id) ==
            (if u.isStaff then 1 else 0)
  {
    var hasId := (v: User) => v.id == u.id;
    var staffWithId := (v: User) => v.isStaff && v.id == u.id;
    FanOutRecipients(firstId, StaffOf(users), batch, now, u.id);
    FilterFuse(users, IsStaff, hasId, staffWithId);
    CountOfUniqueKey(users, u, staffWithId);
  }

  /** Among rows with distinct keys, a predicate that only holds of rows with
      `u`'s key holds of at most `u` itself. */
  lemma {:induction false} CountOfUniqueKey(users: seq<User>, u: User, p: User -> bool)
    requires UniqueIds(users) && u in users
    requires forall v :: p(v) ==> v.id == u.id
    ensures Count(users, p) == (if p(u) then 1 else 0)
  {
    if users[0] == u {
      NoOtherWithKey(users[1..], u, p);
    } else {
      assert users[0].id != u.id by {
        var k :| 0 <= k < |users| && users[k] == u;
      }
      CountOfUniqueKey(users[1..], u, p);
    }
  }

  lemma {:induction false} NoOtherWithKey(users: seq<User>, u: User, p: User -> bool)
    requires forall i :: 0 <= i < |users| ==> users[i].id != u.id
    requires forall v :: p(v) ==> v.id == u.id
    ensures Count(users, p) == 0
  {
    if users != [] {
      NoOtherWithKey(users[1..], u, p);
    }
  }

  method BatchCreatedNotification(table: NotificationTable, users: seq<User>, batch: Batches.Batch,
                                  created: bool, now: int)
    requires table.Valid()
    modifies table
    ensures table.Valid()
    ensures !created ==> table.rows == old(table.rows) && table.nextId == old(table.nextId)
    ensures created ==> table.rows == old(table.rows) + FanOut(old(table.nextId), StaffOf(users), batch, now)
    ensures created ==> table.nextId == old(table.nextId) + |StaffOf(users)|
  {
    if created {
      var admins := StaffOf(users);
      var k := 0;
      while k < |admins|
        invariant 0 <= k <= |admins|
        invariant table.Valid()
        invariant table.nextId == old(table.nextId) + k
        invariant |table.rows| == |old(table.rows)| + k
        invariant table.rows[..|old(table.rows)|] == old(table.rows)
        invariant forall i :: 0 <= i < k ==>
          table.rows[|old(table.rows)| + i] == BatchNotice(old(table.nextId) + i, admins[i].id, batch, now)
      {
        var _ := table.Create(admins[k].id, BatchCreatedType, BatchCreatedTitle,
                              BatchCreatedMessage(batch.batchName), None, Some(batch.id), None, now);
        k := k + 1;
      }
      assert table.rows == old(table.rows) + FanOut(old(table.nextId), admins, batch, now);
    }
  }
}
