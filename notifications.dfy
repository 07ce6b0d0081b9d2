/**
 * The notification bell (components/Notifications.tsx): the notifications
 * the current role sees, newest first, the unread badge, and what clicking
 * one does.
 */
module Notifications {
  import opened Types
  import App

  /**
   * `notifications.filter(n => n.targetRoles.includes(role))`: every
   * occurrence of a notification that targets the role is kept, and no other.
   */
  function ForRole(ns: seq<Notification>, role: UserRole): (r: seq<Notification>)
    ensures forall n :: n in r <==> n in ns && role in n.targetRoles
    ensures |r| <= |ns|
  {
    if ns == [] then []
    else (if role in ns[0].targetRoles then [ns[0]] else []) + ForRole(ns[1..], role)
  }

  /** One step of the filter: the first notification, then the filtered rest. */
  lemma ForRoleCons(x: Notification, s: seq<Notification>, role: UserRole)
    ensures ForRole([x] + s, role) == (if role in x.targetRoles then [x] else []) + ForRole(s, role)
  {
    assert ([x] + s)[0] == x && ([x] + s)[1..] == s;
  }

  /** The filter keeps the order: filtering a concatenation concatenates the filtered parts. */
  lemma {:induction false} ForRoleKeepsOrder(a: seq<Notification>, b: seq<Notification>, role: UserRole)
    ensures ForRole(a + b, role) == ForRole(a, role) + ForRole(b, role)
  {
    if a == [] {
      assert a + b == b;
    } else {
      var head := if role in a[0].targetRoles then [a[0]] else [];
      calc {
        ForRole(a + b, role);
        { assert (a + b)[0] == a[0] && (a + b)[1..] == a[1..] + b; }
        head + ForRole(a[1..] + b, role);
        { ForRoleKeepsOrder(a[1..], b, role); }
        head + (ForRole(a[1..], role) + ForRole(b, role));
        (head + ForRole(a[1..], role)) + ForRole(b, role);
        ForRole(a, role) + ForRole(b, role);
      }
    }
  }

  /** The filter keeps every occurrence of a notification that targets the role, and none of the others. */
  lemma {:induction false} ForRoleCounts(ns: seq<Notification>, role: UserRole)
    ensures forall n :: multiset(ForRole(ns, role))[n] == if role in n.targetRoles then multiset(ns)[n] else 0
  {
    if ns != [] {
      ForRoleCounts(ns[1..], role);
      assert ns == [ns[0]] + ns[1..];
      ForRoleCons(ns[0], ns[1..], role);
    }
  }

  /** A single notification is kept exactly when it targets the role. */
  lemma ForRoleOne(n: Notification, role: UserRole)
    ensures ForRole([n], role) == if role in n.targetRoles then [n] else []
  {
    assert [n][1..] == [];
  }

  /** Ordered by timestamp, newest first. */
  predicate NewestFirst(s: seq<Notification>) {
    forall i, j :: 0 <= i < j < |s| ==> s[i].timestamp >= s[j].timestamp
  }

  /** Put n before the first notification that is not newer than it. */
  function InsertByTime(n: Notification, s: seq<Notification>): (r: seq<Notification>)
    ensures multiset(r) == multiset(s) + multiset{n}
  {
    if s == [] || s[0].timestamp <= n.timestamp then [n] + s
    else
      assert s == [s[0]] + s[1..];
      [s[0]] + InsertByTime(n, s[1..])
  }

  /** A notification no older than any of a newest-first list may go first. */
  lemma PrependKeepsOrder(x: Notification, s: seq<Notification>)
    requires NewestFirst(s)
    requires forall k :: 0 <= k < |s| ==> s[k].timestamp <= x.timestamp
    ensures NewestFirst([x] + s)
  {
    var r := [x] + s;
    forall i, j | 0 <= i < j < |r| ensures r[i].timestamp >= r[j].timestamp {
      assert r[j] == s[j - 1];
      if i > 0 {
        assert r[i] == s[i - 1];
      }
    }
  }

  /** Inserting keeps every timestamp under a bound both sides respect. */
  lemma {:induction false} InsertByTimeBounded(n: Notification, s: seq<Notification>, t: int)
    requires n.timestamp <= t
    requires forall k :: 0 <= k < |s| ==> s[k].timestamp <= t
    ensures forall k :: 0 <= k < |InsertByTime(n, s)| ==> InsertByTime(n, s)[k].timestamp <= t
  {
    if !(s == [] || s[0].timestamp <= n.timestamp) {
      InsertByTimeBounded(n, s[1..], t);
      var r := InsertByTime(n, s);
      assert r == [s[0]] + InsertByTime(n, s[1..]);
      forall k | 0 <= k < |r| ensures r[k].timestamp <= t {
        if k > 0 {
          assert r[k] == InsertByTime(n, s[1..])[k - 1];
        }
      }
    }
  }

  lemma {:induction false} InsertByTimeKeepsOrder(n: Notification, s: seq<Notification>)
    requires NewestFirst(s)
    ensures NewestFirst(InsertByTime(n, s))
  {
    if s == [] || s[0].timestamp <= n.timestamp {
      PrependKeepsOrder(n, s);
    } else {
      var rest := InsertByTime(n, s[1..]);
      InsertByTimeKeepsOrder(n, s[1..]);
      InsertByTimeBounded(n, s[1..], s[0].timestamp);
      PrependKeepsOrder(s[0], rest);
    }
  }

  /**
   * The sort with comparator `b.timestamp - a.timestamp` (Notifications.tsx:34):
   * a stable insertion sort, newest first.
   */
  function SortNewestFirst(s: seq<Notification>): (r: seq<Notification>)
    ensures multiset(r) == multiset(s)
    ensures NewestFirst(r)
  {
    if s == [] then []
    else
      var rest := SortNewestFirst(s[1..]);
      InsertByTimeKeepsOrder(s[0], rest);
      assert s == [s[0]] + s[1..];
      InsertByTime(s[0], rest)
  }

  /**
   * `userNotifications` (Notifications.tsx:31-35): exactly the notifications
   * that target the role, nothing added or dropped, newest first.
   */
  function UserNotifications(ns: seq<Notification>, role: UserRole): (r: seq<Notification>)
    ensures forall n :: n in r <==> n in ns && role in n.targetRoles
    ensures multiset(r) == multiset(ForRole(ns, role))
    ensures NewestFirst(r)
  {
    var r := SortNewestFirst(ForRole(ns, role));
    assert forall n :: n in r <==> n in multiset(ForRole(ns, role));
    r
  }

  /** `s.filter(n => !n.isRead).length`. */
  function UnreadCount(s: seq<Notification>): (c: nat)
    ensures c <= |s|
    ensures c == 0 <==> forall k :: 0 <= k < |s| ==> s[k].isRead
  {
    if s == [] then 0
    else
      assert forall k :: 0 < k < |s| ==> s[k] == s[1..][k - 1];
      (if s[0].isRead then 0 else 1) + UnreadCount(s[1..])
  }

  lemma {:induction false} UnreadCountInsert(n: Notification, s: seq<Notification>)
    ensures UnreadCount(InsertByTime(n, s)) == UnreadCount([n] + s)
  {
    if s != [] && s[0].timestamp > n.timestamp {
      UnreadCountInsert(n, s[1..]);
      assert ([s[0]] + InsertByTime(n, s[1..]))[1..] == InsertByTime(n, s[1..]);
      assert ([n] + s)[1..] == s;
      assert ([n] + s[1..])[1..] == s[1..];
    }
  }

  lemma {:induction false} UnreadCountSort(s: seq<Notification>)
    ensures UnreadCount(SortNewestFirst(s)) == UnreadCount(s)
  {
    if s != [] {
      UnreadCountSort(s[1..]);
      UnreadCountInsert(s[0], SortNewestFirst(s[1..]));
      assert ([s[0]] + SortNewestFirst(s[1..]))[1..] == SortNewestFirst(s[1..]);
    }
  }

  /**
   * `unreadCount` (Notifications.tsx:37-39): the unread notifications among
   * those the role sees, whatever their order; never more than it sees.
   */
  lemma UnreadCountOfUserNotifications(ns: seq<Notification>, role: UserRole)
    ensures UnreadCount(UserNotifications(ns, role)) == UnreadCount(ForRole(ns, role))
    ensures UnreadCount(UserNotifications(ns, role)) <= |UserNotifications(ns, role)|
  {
    UnreadCountSort(ForRole(ns, role));
  }

  lemma {:induction false} NoUnreadWhenAllRead(s: seq<Notification>)
    requires forall k :: 0 <= k < |s| ==> s[k].isRead
    ensures UnreadCount(s) == 0
  {
    if s != [] {
      NoUnreadWhenAllRead(s[1..]);
    }
  }

  /** After "mark all as read" the role's badge shows no unread notification. */
  lemma MarkAllAsReadClearsBadge(ns: seq<Notification>, role: UserRole)
    ensures UnreadCount(UserNotifications(App.MarkAllRead(ns, role), role)) == 0
  {
    var m := App.MarkAllRead(ns, role);
    var f := ForRole(m, role);
    forall k | 0 <= k < |f| ensures f[k].isRead {
      assert f[k] in m;
      var j :| 0 <= j < |m| && m[j] == f[k];
      assert role in ns[j].targetRoles;
    }
    NoUnreadWhenAllRead(f);
    UnreadCountOfUserNotifications(m, role);
  }

  /**
   * `handleNotificationClick` (Notifications.tsx:53-59): mark the
   * notification read only when it is unread, and always open its order.
   */
  method HandleNotificationClick(app: App.Store, n: Notification)
    modifies app
    ensures app.notifications ==
              if n.isRead then old(app.notifications) else App.MarkRead(old(app.notifications), n.id)
    ensures app.selectedOrderId == Some(n.orderId)
    ensures app.orders == old(app.orders) && app.currentUserRole == old(app.currentUserRole)
  {
    if !n.isRead {
      app.MarkAsRead(n.id);
    }
    app.SelectOrder(n.orderId);
  }
}
