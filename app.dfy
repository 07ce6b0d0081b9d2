/**
 * The application's state (App.tsx): the list of orders, the list of
 * notifications, the current role and the selected order, with the
 * operations that change them and the rules that raise notifications when an
 * update completes design, completes production or assigns the order.
 */
module App {
  import opened Types

  // ---------------------------------------------------------------------------
  // Aggregate completion of an order (App.tsx:90-92)
  // ---------------------------------------------------------------------------

  /** `items.every(...)` for the flag of one stage. */
  function EveryDone(items: seq<ItemValue>, stage: Stage): (r: bool)
    ensures r <==> forall k :: 0 <= k < |items| ==> Done(items[k], stage)
  {
    items == [] || (Done(items[0], stage) && EveryDone(items[1..], stage))
  }

  predicate AllItems(o: OrderValue) {
    |o.items| > 0
  }

  /** Every item is design-complete; an order without items never is. */
  function AllDesigned(o: OrderValue): (r: bool)
    ensures r <==> |o.items| > 0 && forall k :: 0 <= k < |o.items| ==> o.items[k].isDesignComplete
  {
    AllItems(o) && EveryDone(o.items, Design)
  }

  /** Every item is production-complete; an order without items never is. */
  function AllProduced(o: OrderValue): (r: bool)
    ensures r <==> |o.items| > 0 && forall k :: 0 <= k < |o.items| ==> o.items[k].isProductionComplete
  {
    AllItems(o) && EveryDone(o.items, Production)
  }

  // ---------------------------------------------------------------------------
  // Notifications and the transition rules (App.tsx:51-61, 76-104)
  // ---------------------------------------------------------------------------

  /** The record `addNotification` builds: fresh id, clock reading, unread. */
  function NewNotification(message: string, orderId: string, targetRoles: seq<UserRole>,
                           stamp: Stamp): (n: Notification)
    ensures !n.isRead && n.id == stamp.id && n.timestamp == stamp.timestamp
    ensures n.message == message && n.orderId == orderId && n.targetRoles == targetRoles
  {
    Notification(stamp.id, message, orderId, stamp.timestamp, false, targetRoles)
  }

  function CreatedMessage(name: string): string {
    "Nuevo pedido '" + name + "' ha sido creado."
  }

  function DesignMessage(name: string): string {
    "El diseño para el pedido '" + name + "' está completo."
  }

  function ProductionMessage(name: string): string {
    "La producción del pedido '" + name + "' ha finalizado."
  }

  /** The assignment message names the order and ends with the assignee and a full stop. */
  function AssignedMessage(name: string, assignee: string): (m: string)
    ensures |m| > 11 + |name| + |assignee|
    ensures m[|m| - 1 - |assignee|..|m| - 1] == assignee && m[|m| - 1] == '.'
    ensures m[..11] == "El pedido '" && m[11..11 + |name|] == name
  {
    "El pedido '" + name + "' fue asignado a: " + assignee + "."
  }

  /** The fresh ids and clock readings the three rules of one update may draw. */
  datatype Stamps = Stamps(design: Stamp, production: Stamp, assignment: Stamp)

  predicate DesignCompleted(orig: OrderValue, upd: OrderValue) {
    !AllDesigned(orig) && AllDesigned(upd)
  }

  predicate ProductionCompleted(orig: OrderValue, upd: OrderValue) {
    !AllProduced(orig) && AllProduced(upd)
  }

  predicate AssigneeSet(orig: OrderValue, upd: OrderValue) {
    !Truthy(orig.assignedTo) && Truthy(upd.assignedTo)
  }

  function DesignNotice(upd: OrderValue, st: Stamps): Notification {
    NewNotification(DesignMessage(upd.name), upd.id, [Producer], st.design)
  }

  function ProductionNotice(upd: OrderValue, st: Stamps): Notification {
    NewNotification(ProductionMessage(upd.name), upd.id, [Admin], st.production)
  }

  function AssignmentNotice(upd: OrderValue, assignee: string, st: Stamps): Notification {
    NewNotification(AssignedMessage(upd.name, assignee), upd.id, [Admin], st.assignment)
  }

  /** The three kinds of notice never coincide: their roles or their messages differ. */
  lemma NoticesDiffer(upd: OrderValue, st: Stamps)
    ensures DesignNotice(upd, st) != ProductionNotice(upd, st)
    ensures forall a :: DesignNotice(upd, st) != AssignmentNotice(upd, a, st)
    ensures forall a :: ProductionNotice(upd, st) != AssignmentNotice(upd, a, st)
  {
    forall a ensures ProductionNotice(upd, st) != AssignmentNotice(upd, a, st) {
      assert ProductionMessage(upd.name)[0] == 'L';
      assert AssignedMessage(upd.name, a)[0] == 'E';
    }
  }

  /**
   * The notifications one update adds, newest first, as `addNotification`
   * prepends them: the three rules are independent and edge-triggered.
   */
  function TransitionNotices(orig: OrderValue, upd: OrderValue, st: Stamps): (r: seq<Notification>)
    ensures |r| == (if DesignCompleted(orig, upd) then 1 else 0)
                 + (if ProductionCompleted(orig, upd) then 1 else 0)
                 + (if AssigneeSet(orig, upd) then 1 else 0)
    ensures forall k :: 0 <= k < |r| ==> r[k].orderId == upd.id && !r[k].isRead
    ensures DesignCompleted(orig, upd) <==> DesignNotice(upd, st) in r
    ensures ProductionCompleted(orig, upd) <==> ProductionNotice(upd, st) in r
    ensures AssigneeSet(orig, upd) <==>
              upd.assignedTo.Some? && AssignmentNotice(upd, upd.assignedTo.value, st) in r
    ensures (exists k :: 0 <= k < |r| && Producer in r[k].targetRoles) <==> DesignCompleted(orig, upd)
    ensures AllDesigned(orig) && AllProduced(orig) && Truthy(orig.assignedTo) ==> r == []
  {
    NoticesDiffer(upd, st);
    (if AssigneeSet(orig, upd) then [AssignmentNotice(upd, upd.assignedTo.value, st)] else [])
    + (if ProductionCompleted(orig, upd) then [ProductionNotice(upd, st)] else [])
    + (if DesignCompleted(orig, upd) then [DesignNotice(upd, st)] else [])
  }

  // ---------------------------------------------------------------------------
  // Lists of orders and notifications
  // ---------------------------------------------------------------------------

  /** The position `find` stops at: the first order with the id. */
  function IndexOfId<I>(os: seq<OrderRecord<I>>, id: string): (r: Option<nat>)
    ensures r.None? ==> forall k :: 0 <= k < |os| ==> os[k].id != id
    ensures r.Some? ==> r.value < |os| && os[r.value].id == id
    ensures r.Some? ==> forall j :: 0 <= j < r.value ==> os[j].id != id
  {
    if os == [] then None
    else if os[0].id == id then Some(0)
    else match IndexOfId(os[1..], id)
      case None => None
      case Some(k) => Some(k + 1)
  }

  /** `orders.find(o => o.id === id)`. */
  function FindById<I>(os: seq<OrderRecord<I>>, id: string): (r: Option<OrderRecord<I>>)
    ensures r.None? <==> forall k :: 0 <= k < |os| ==> os[k].id != id
    ensures r.Some? ==> r.value.id == id
    ensures r.Some? ==> exists k :: 0 <= k < |os| && os[k] == r.value && forall j :: 0 <= j < k ==> os[j].id != id
  {
    match IndexOfId(os, id)
    case None => None
    case Some(k) => Some(os[k])
  }

  /** `orders.map(o => o.id === u.id ? u : o)`: every order with u's id becomes u. */
  function ReplaceById<I>(os: seq<OrderRecord<I>>, u: OrderRecord<I>): (r: seq<OrderRecord<I>>)
    ensures |r| == |os|
    ensures forall k :: 0 <= k < |os| && os[k].id != u.id ==> r[k] == os[k]
    ensures forall k :: 0 <= k < |os| && os[k].id == u.id ==> r[k] == u
  {
    if os == [] then []
    else [if os[0].id == u.id then u else os[0]] + ReplaceById(os[1..], u)
  }

  /** After an accepted update, looking the id up again finds exactly the update. */
  lemma {:induction false} ReplaceThenFind<I>(os: seq<OrderRecord<I>>, u: OrderRecord<I>)
    requires FindById(os, u.id).Some?
    ensures FindById(ReplaceById(os, u), u.id) == Some(u)
    ensures ReplaceById(ReplaceById(os, u), u) == ReplaceById(os, u)
  {
    var k := IndexOfId(os, u.id).value;
    var r := ReplaceById(os, u);
    var j := IndexOfId(r, u.id).value;
    assert r[k].id == u.id;
    assert j == k;
    var rr := ReplaceById(r, u);
    assert |rr| == |r|;
    forall i | 0 <= i < |r| ensures rr[i] == r[i] {
    }
  }

  /** `markAsRead`: the notifications with the id become read, nothing else changes. */
  function MarkRead(ns: seq<Notification>, id: string): (r: seq<Notification>)
    ensures |r| == |ns|
    ensures forall k :: 0 <= k < |ns| ==> r[k] == ns[k].(isRead := r[k].isRead)
    ensures forall k :: 0 <= k < |ns| ==> r[k].isRead == (ns[k].isRead || ns[k].id == id)
  {
    if ns == [] then []
    else [if ns[0].id == id then ns[0].(isRead := true) else ns[0]] + MarkRead(ns[1..], id)
  }

  /** The ids of the notifications that target a role. */
  function RoleIds(ns: seq<Notification>, role: UserRole): set<string> {
    set k | 0 <= k < |ns| && role in ns[k].targetRoles :: ns[k].id
  }

  /**
   * `markAllAsRead`: every notification whose id is the id of one that targets
   * the role becomes read (in particular every one that targets the role);
   * a notification whose id is not among those is left as it was.
   */
  function MarkAllRead(ns: seq<Notification>, role: UserRole): (r: seq<Notification>)
    ensures |r| == |ns|
    ensures forall k :: 0 <= k < |ns| ==> r[k] == ns[k].(isRead := r[k].isRead)
    ensures forall k :: 0 <= k < |ns| ==> r[k].isRead == (ns[k].isRead || ns[k].id in RoleIds(ns, role))
    ensures forall k :: 0 <= k < |ns| && role in ns[k].targetRoles ==> r[k].isRead
  {
    var ids := RoleIds(ns, role);
    seq(|ns|, k requires 0 <= k < |ns| => if ns[k].id in ids then ns[k].(isRead := true) else ns[k])
  }

  predicate UniqueIds(ns: seq<Notification>) {
    forall i, j :: 0 <= i < j < |ns| ==> ns[i].id != ns[j].id
  }

  /** With unique ids (fresh ids are), exactly the notifications targeting the role are marked. */
  lemma MarkAllReadExactly(ns: seq<Notification>, role: UserRole)
    requires UniqueIds(ns)
    ensures forall k :: 0 <= k < |ns| ==>
              MarkAllRead(ns, role)[k].isRead == (ns[k].isRead || role in ns[k].targetRoles)
  {
    var r := MarkAllRead(ns, role);
    forall k | 0 <= k < |ns|
      ensures r[k].isRead == (ns[k].isRead || role in ns[k].targetRoles)
    {
      if role !in ns[k].targetRoles {
        assert forall j :: 0 <= j < |ns| && role in ns[j].targetRoles ==> ns[j].id != ns[k].id;
        assert ns[k].id !in RoleIds(ns, role);
      }
    }
  }

  lemma MarkReadIdempotent(ns: seq<Notification>, id: string)
    ensures MarkRead(MarkRead(ns, id), id) == MarkRead(ns, id)
  {
    var r := MarkRead(ns, id);
    var rr := MarkRead(r, id);
    assert |rr| == |r|;
    forall k | 0 <= k < |r| ensures rr[k] == r[k] {
      assert rr[k] == r[k].(isRead := rr[k].isRead);
    }
  }

  lemma MarkAllReadIdempotent(ns: seq<Notification>, role: UserRole)
    ensures MarkAllRead(MarkAllRead(ns, role), role) == MarkAllRead(ns, role)
  {
    var r := MarkAllRead(ns, role);
    var rr := MarkAllRead(r, role);
    assert |rr| == |r|;
    forall k | 0 <= k < |r| ensures rr[k] == r[k] {
      if r[k].id in RoleIds(r, role) {
        var j :| 0 <= j < |r| && role in r[j].targetRoles && r[j].id == r[k].id;
        assert ns[j].id == r[k].id && role in ns[j].targetRoles;
        assert ns[k].id in RoleIds(ns, role);
      }
    }
  }

  lemma PrependThree<T>(a: seq<T>, b: seq<T>, c: seq<T>, rest: seq<T>)
    ensures a + (b + (c + rest)) == a + b + c + rest
  {
  }

  // ---------------------------------------------------------------------------
  // The state of the application
  // ---------------------------------------------------------------------------

  class Store {
    var orders: seq<Order>
    var notifications: seq<Notification>
    var currentUserRole: UserRole
    var selectedOrderId: Option<string>

    /** The initial state: the given orders, no notifications, Admin, nothing selected. */
    constructor (initialOrders: seq<Order>)
      ensures orders == initialOrders && notifications == []
      ensures currentUserRole == Admin && selectedOrderId == None
    {
      orders := initialOrders;
      notifications := [];
      currentUserRole := Admin;
      selectedOrderId := None;
    }

    /** The order the detail view shows (App.tsx:109-112). */
    function SelectedOrder(): (r: Option<Order>)
      reads this
      ensures r.Some? ==> selectedOrderId.Some? && r.value.id == selectedOrderId.value
      ensures r.Some? ==> exists k :: 0 <= k < |orders| && orders[k] == r.value &&
                            forall j :: 0 <= j < k ==> orders[j].id != selectedOrderId.value
      ensures r.None? ==> selectedOrderId.None? || forall k :: 0 <= k < |orders| ==> orders[k].id != selectedOrderId.value
    {
      match selectedOrderId
      case None => None
      case Some(id) => FindById(orders, id)
    }

    method SelectOrder(id: string)
      modifies this
      ensures selectedOrderId == Some(id)
      ensures orders == old(orders) && notifications == old(notifications)
      ensures currentUserRole == old(currentUserRole)
    {
      selectedOrderId := Some(id);
    }

    method SetCurrentUserRole(role: UserRole)
      modifies this
      ensures currentUserRole == role
      ensures orders == old(orders) && notifications == old(notifications)
      ensures selectedOrderId == old(selectedOrderId)
    {
      currentUserRole := role;
    }

    /** Prepend one unread notification; the older ones follow in the same order. */
    method AddNotification(message: string, orderId: string, targetRoles: seq<UserRole>, stamp: Stamp)
      modifies this
      ensures notifications == [NewNotification(message, orderId, targetRoles, stamp)] + old(notifications)
      ensures orders == old(orders) && currentUserRole == old(currentUserRole)
      ensures selectedOrderId == old(selectedOrderId)
    {
      var n := NewNotification(message, orderId, targetRoles, stamp);
      notifications := [n] + notifications;
    }

    method MarkAsRead(id: string)
      modifies this
      ensures notifications == MarkRead(old(notifications), id)
      ensures orders == old(orders) && currentUserRole == old(currentUserRole)
      ensures selectedOrderId == old(selectedOrderId)
    {
      notifications := MarkRead(notifications, id);
    }

    method MarkAllAsRead()
      modifies this
      ensures notifications == MarkAllRead(old(notifications), currentUserRole)
      ensures orders == old(orders) && currentUserRole == old(currentUserRole)
      ensures selectedOrderId == old(selectedOrderId)
    {
      notifications := MarkAllRead(notifications, currentUserRole);
    }

    /**
     * Give the new order its id, put it first, and raise exactly one creation
     * notification for Designer and Producer, whatever its items.
     */
    method AddOrder(data: Order, orderId: string, stamp: Stamp)
      modifies this
      ensures orders == [data.(id := orderId)] + old(orders)
      ensures notifications ==
                [NewNotification(CreatedMessage(data.name), orderId, [Designer, Producer], stamp)]
                + old(notifications)
      ensures currentUserRole == old(currentUserRole) && selectedOrderId == old(selectedOrderId)
    {
      var newOrder := data.(id := orderId);
      orders := [newOrder] + orders;
      AddNotification(CreatedMessage(newOrder.name), newOrder.id, [Designer, Producer], stamp);
    }

    /**
     * The three rules of App.tsx:94-104, applied in order to the stored order
     * as it looks now (orig) and the update (upd): each rule that fires
     * prepends its notification.
     */
    method RaiseTransitionNotices(orig: OrderValue, upd: OrderValue, st: Stamps)
      modifies this
      ensures notifications == TransitionNotices(orig, upd, st) + old(notifications)
      ensures orders == old(orders) && currentUserRole == old(currentUserRole)
      ensures selectedOrderId == old(selectedOrderId)
    {
      ghost var before := notifications;
      if !AllDesigned(orig) && AllDesigned(upd) {
        AddNotification(DesignMessage(upd.name), upd.id, [Producer], st.design);
      }
      ghost var afterDesign := notifications;
      if !AllProduced(orig) && AllProduced(upd) {
        AddNotification(ProductionMessage(upd.name), upd.id, [Admin], st.production);
      }
      ghost var afterProduction := notifications;
      if !Truthy(orig.assignedTo) && Truthy(upd.assignedTo) {
        AddNotification(AssignedMessage(upd.name, upd.assignedTo.value), upd.id, [Admin], st.assignment);
      }
      PrependThree(if AssigneeSet(orig, upd) then [AssignmentNotice(upd, upd.assignedTo.value, st)] else [],
                   if ProductionCompleted(orig, upd) then [ProductionNotice(upd, st)] else [],
                   if DesignCompleted(orig, upd) then [DesignNotice(upd, st)] else [],
                   before);
    }

    /**
     * An update of an unknown id changes nothing. Otherwise the rules compare
     * the stored order, as it looks now, with the update, their notifications
     * are prepended, and the update replaces the stored order.
     */
    method UpdateOrder(u: Order, st: Stamps)
      modifies this
      ensures FindById(old(orders), u.id).None? ==>
                orders == old(orders) && notifications == old(notifications)
      ensures FindById(old(orders), u.id).Some? ==>
                orders == ReplaceById(old(orders), u) &&
                notifications == TransitionNotices(View(FindById(old(orders), u.id).value), View(u), st)
                                 + old(notifications)
      ensures currentUserRole == old(currentUserRole) && selectedOrderId == old(selectedOrderId)
    {
      var originalOrder := FindById(orders, u.id);
      if originalOrder.None? {
        return;
      }
      var orig := View(originalOrder.value);
      var upd := View(u);
      RaiseTransitionNotices(orig, upd, st);
      orders := ReplaceById(orders, u);
      assert Snapshots(u.items) == upd.items;
      assert View(u) == upd && View(originalOrder.value) == orig;
    }
  }
}
