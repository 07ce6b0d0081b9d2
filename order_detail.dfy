/**
 * The order detail view (components/OrderDetail.tsx): the handlers that
 * change an order, either straight through the store (checkbox toggles, dates,
 * assignee) or through an editable deep copy that is saved as a whole.
 *
 * The `order` these handlers receive is the order the store holds (the view
 * shows `orders.find(o => o.id === selectedOrderId)`), so its item objects
 * are the store's own item objects.
 */
module OrderDetail {
  import opened Types
  import App
  import OrderList

  /** The position `items.find(i => i.id === itemId)` stops at. */
  function IndexOfItem(items: seq<OrderItem>, itemId: string): (r: Option<nat>)
    ensures r.None? ==> forall k :: 0 <= k < |items| ==> items[k].id != itemId
    ensures r.Some? ==> r.value < |items| && items[r.value].id == itemId
    ensures r.Some? ==> forall j :: 0 <= j < r.value ==> items[j].id != itemId
  {
    if items == [] then None
    else if items[0].id == itemId then Some(0)
    else match IndexOfItem(items[1..], itemId)
      case None => None
      case Some(k) => Some(k + 1)
  }

  /** The order with the flag of one stage of item k inverted. */
  function FlipAt(v: OrderValue, k: nat, stage: Stage): (r: OrderValue)
    requires k < |v.items|
    ensures |r.items| == |v.items| && r.items[k] == Flip(v.items[k], stage)
    ensures forall j :: 0 <= j < |v.items| && j != k ==> r.items[j] == v.items[j]
    ensures r.(items := v.items) == v
  {
    v.(items := v.items[k := Flip(v.items[k], stage)])
  }

  /**
   * `handleItemStatusToggle` as written (OrderDetail.tsx:22-33). The copy
   * `{ ...order }` is shallow, so the flip lands in the item object the store
   * holds, before `updateOrder` looks the stored order up. When the order is
   * the stored one, the store therefore compares the flipped order with
   * itself: no rule can fire, whatever the flip completes.
   */
  method HandleItemStatusToggle(app: App.Store, order: Order, itemId: string, stage: Stage,
                                st: App.Stamps)
    modifies app, order.items
    ensures IndexOfItem(order.items, itemId).None? ==>
              unchanged(app) && forall it :: it in order.items ==> unchanged(it)
    ensures IndexOfItem(order.items, itemId).Some? ==>
              var k := IndexOfItem(order.items, itemId).value;
              && Snapshot(order.items[k]) == Flip(old(Snapshot(order.items[k])), stage)
              && (forall it :: it in order.items && it != order.items[k] ==> unchanged(it))
              && (App.FindById(old(app.orders), order.id).Some? ==>
                    && app.orders == App.ReplaceById(old(app.orders), order)
                    && app.notifications ==
                         App.TransitionNotices(View(App.FindById(old(app.orders), order.id).value), View(order), st)
                         + old(app.notifications))
              && (App.FindById(old(app.orders), order.id) == Some(order) ==>
                    app.notifications == old(app.notifications))
    ensures App.FindById(old(app.orders), order.id).None? ==>
              app.orders == old(app.orders) && app.notifications == old(app.notifications)
    ensures app.currentUserRole == old(app.currentUserRole) && app.selectedOrderId == old(app.selectedOrderId)
  {
    var updatedOrder := order;  // { ...order }: a new record sharing the item objects
    var found := IndexOfItem(updatedOrder.items, itemId);
    if found.Some? {
      var item := updatedOrder.items[found.value];
      match stage {
        case Design => item.isDesignComplete := !item.isDesignComplete;
        case Production => item.isProductionComplete := !item.isProductionComplete;
      }
      app.UpdateOrder(updatedOrder, st);
    }
  }

  /**
   * The toggle as evidently intended: copy the item before flipping it, so
   * that the store still holds the old flags when it compares. Returns the
   * order sent to `updateOrder`, if any.
   */
  method HandleItemStatusToggleCopying(app: App.Store, order: Order, itemId: string, stage: Stage,
                                       st: App.Stamps)
    returns (sent: Option<Order>)
    modifies app
    ensures IndexOfItem(order.items, itemId).None? <==> sent.None?
    ensures sent.None? ==> unchanged(app)
    ensures sent.Some? ==>
              var k := IndexOfItem(order.items, itemId).value;
              && View(sent.value) == FlipAt(View(order), k, stage)
              && (App.FindById(old(app.orders), order.id).Some? ==>
                    && app.orders == App.ReplaceById(old(app.orders), sent.value)
                    && app.notifications ==
                         App.TransitionNotices(View(App.FindById(old(app.orders), order.id).value), View(sent.value), st)
                         + old(app.notifications))
              && (App.FindById(old(app.orders), order.id) == Some(order) ==>
                    app.notifications ==
                      App.TransitionNotices(View(order), FlipAt(View(order), k, stage), st)
                      + old(app.notifications))
    ensures App.FindById(old(app.orders), order.id).None? ==>
              app.orders == old(app.orders) && app.notifications == old(app.notifications)
    ensures app.currentUserRole == old(app.currentUserRole) && app.selectedOrderId == old(app.selectedOrderId)
  {
    var found := IndexOfItem(order.items, itemId);
    if found.None? {
      return None;
    }
    var k := found.value;
    ghost var v := View(order);
    var updatedOrder := WithFlippedCopy(order, k, stage);
    ghost var w := View(updatedOrder);
    app.UpdateOrder(updatedOrder, st);
    assert View(updatedOrder) == w && View(order) == v;
    sent := Some(updatedOrder);
  }

  /** The order with item k replaced by a new object holding the flipped flag. */
  method WithFlippedCopy(order: Order, k: nat, stage: Stage) returns (updated: Order)
    requires k < |order.items|
    ensures View(updated) == FlipAt(View(order), k, stage)
    ensures updated.items == order.items[k := updated.items[k]] && fresh(updated.items[k])
  {
    var item := order.items[k];
    var copy := new OrderItem(item.id, item.size, item.detail1, item.detail2,
                              item.isDesignComplete, item.isProductionComplete);
    match stage {
      case Design => copy.isDesignComplete := !copy.isDesignComplete;
      case Production => copy.isProductionComplete := !copy.isProductionComplete;
    }
    updated := order.(items := order.items[k := copy]);
    assert Snapshots(updated.items) == FlipAt(View(order), k, stage).items;
  }

  /**
   * Completing the last design-pending item through the copying toggle raises
   * exactly the design-complete notification for Producer.
   */
  lemma LastDesignFlipNotifiesProducer(v: OrderValue, k: nat, st: App.Stamps)
    requires k < |v.items| && !v.items[k].isDesignComplete
    requires forall j :: 0 <= j < |v.items| && j != k ==> v.items[j].isDesignComplete
    ensures App.TransitionNotices(v, FlipAt(v, k, Design), st) == [App.DesignNotice(FlipAt(v, k, Design), st)]
  {
    var w := FlipAt(v, k, Design);
    assert App.AllDesigned(w);
    assert !App.AllDesigned(v);
    assert App.AllProduced(w) == App.AllProduced(v) by {
      assert forall j :: 0 <= j < |v.items| ==>
        w.items[j].isProductionComplete == v.items[j].isProductionComplete;
    }
  }

  /**
   * The store, one order with one design-pending item: ticking the design box
   * completes the design of the whole order, yet no notification is raised.
   */
  method ToggleCompletingDesignIsSilent() returns (app: App.Store, order: Order)
    ensures app.orders == [order]
    ensures App.AllDesigned(View(order))
    ensures app.notifications == []
  {
    var item := new OrderItem("1-1", "M", "Gomez", "10", false, false);
    order := OrderRecord("1", "Pedido", "Club", "", [item], None, None, None, None, None);
    app := new App.Store([order]);
    var st := App.Stamps(Stamp("n1", 1), Stamp("n2", 1), Stamp("n3", 1));
    HandleItemStatusToggle(app, order, "1-1", Design, st);
    assert Snapshots(order.items)[0].isDesignComplete;
  }

  /** The same click through the copying toggle raises the Producer notification. */
  method ToggleCopyCompletingDesignNotifies() returns (app: App.Store, order: Order)
    ensures |app.orders| == 1 && App.AllDesigned(View(app.orders[0]))
    ensures |app.notifications| == 1 && app.notifications[0].targetRoles == [Producer]
  {
    var item := new OrderItem("1-1", "M", "Gomez", "10", false, false);
    order := OrderRecord("1", "Pedido", "Club", "", [item], None, None, None, None, None);
    app := new App.Store([order]);
    var st := App.Stamps(Stamp("n1", 1), Stamp("n2", 1), Stamp("n3", 1));
    var sent := HandleItemStatusToggleCopying(app, order, "1-1", Design, st);
    LastDesignFlipNotifiesProducer(View(order), 0, st);
  }

  /** The four date fields of an order. */
  datatype DateField = StartDate | DesignEndDate | ProductionEndDate | DeliveryDate

  function DateOf<I>(o: OrderRecord<I>, field: DateField): Option<string> {
    match field
    case StartDate => o.startDate
    case DesignEndDate => o.designEndDate
    case ProductionEndDate => o.productionEndDate
    case DeliveryDate => o.deliveryDate
  }

  /** `{ ...order, [field]: value }` for a date field: only that field changes. */
  function WithDate<I>(o: OrderRecord<I>, field: DateField, value: string): (r: OrderRecord<I>)
    ensures DateOf(r, field) == Some(value)
    ensures forall g :: g != field ==> DateOf(r, g) == DateOf(o, g)
    ensures r.id == o.id && r.name == o.name && r.client == o.client && r.details == o.details
    ensures r.items == o.items && r.assignedTo == o.assignedTo
  {
    match field
    case StartDate => o.(startDate := Some(value))
    case DesignEndDate => o.(designEndDate := Some(value))
    case ProductionEndDate => o.(productionEndDate := Some(value))
    case DeliveryDate => o.(deliveryDate := Some(value))
  }

  /**
   * `handleDateChange` (OrderDetail.tsx:35-37): the store receives the order
   * with one date set; the items and the assignee are the stored ones, so no
   * rule fires.
   */
  method HandleDateChange(app: App.Store, order: Order, field: DateField, value: string, st: App.Stamps)
    modifies app
    ensures app.orders == if App.FindById(old(app.orders), order.id).Some?
                          then App.ReplaceById(old(app.orders), WithDate(order, field, value))
                          else old(app.orders)
    ensures App.FindById(old(app.orders), order.id).Some? ==>
              app.notifications ==
                App.TransitionNotices(View(App.FindById(old(app.orders), order.id).value),
                                      View(WithDate(order, field, value)), st)
                + old(app.notifications)
    ensures App.FindById(old(app.orders), order.id).None? || App.FindById(old(app.orders), order.id) == Some(order) ==>
              app.notifications == old(app.notifications)
    ensures app.currentUserRole == old(app.currentUserRole) && app.selectedOrderId == old(app.selectedOrderId)
  {
    ghost var v := View(order);
    var updated := WithDate(order, field, value);
    assert View(updated) == WithDate(v, field, value);
    ItemsKeptNotices(v, WithDate(v, field, value), st);
    app.UpdateOrder(updated, st);
    assert View(order) == v;
  }

  /**
   * An update that keeps the items can fire only the assignment rule: the two
   * completion rules look at the items alone.
   */
  lemma ItemsKeptNotices(orig: OrderValue, upd: OrderValue, st: App.Stamps)
    requires orig.items == upd.items
    ensures App.TransitionNotices(orig, upd, st) ==
              if App.AssigneeSet(orig, upd) then [App.AssignmentNotice(upd, upd.assignedTo.value, st)] else []
  {
    assert App.AllDesigned(orig) == App.AllDesigned(upd);
    assert App.AllProduced(orig) == App.AllProduced(upd);
  }

  /**
   * `handleAssignedToChange` (OrderDetail.tsx:39-41), run on every keystroke:
   * the first character typed into an empty assignee raises the assignment
   * notification, naming that one character; later keystrokes raise nothing.
   */
  method HandleAssignedToChange(app: App.Store, order: Order, value: string, st: App.Stamps)
    modifies app
    ensures app.orders == if App.FindById(old(app.orders), order.id).Some?
                          then App.ReplaceById(old(app.orders), order.(assignedTo := Some(value)))
                          else old(app.orders)
    ensures App.FindById(old(app.orders), order.id).None? ==> app.notifications == old(app.notifications)
    ensures App.FindById(old(app.orders), order.id).Some? ==>
              app.notifications ==
                App.TransitionNotices(View(App.FindById(old(app.orders), order.id).value),
                                      View(order.(assignedTo := Some(value))), st)
                + old(app.notifications)
    ensures App.FindById(old(app.orders), order.id) == Some(order) ==>
              app.notifications ==
                (if !Truthy(order.assignedTo) && value != ""
                 then [App.NewNotification(App.AssignedMessage(order.name, value), order.id, [Admin], st.assignment)]
                 else [])
                + old(app.notifications)
    ensures app.currentUserRole == old(app.currentUserRole) && app.selectedOrderId == old(app.selectedOrderId)
  {
    ghost var v := View(order);
    var updated := order.(assignedTo := Some(value));
    assert View(updated) == v.(assignedTo := Some(value));
    ItemsKeptNotices(v, v.(assignedTo := Some(value)), st);
    app.UpdateOrder(updated, st);
    assert View(order) == v;
  }

  /**
   * Typing "An" into the empty assignee of the stored order: the first
   * keystroke raises the one assignment notification, and it names "A".
   */
  method TypingAnAssigneeNamesItsFirstLetter() returns (app: App.Store)
    ensures |app.notifications| == 1
    ensures app.notifications[0].message == App.AssignedMessage("Pedido", "A")
    ensures |app.orders| == 1 && app.orders[0].assignedTo == Some("An")
  {
    var order0: Order := OrderRecord("1", "Pedido", "Club", "", [], None, None, None, None, None);
    app := new App.Store([order0]);
    var st := App.Stamps(Stamp("n1", 1), Stamp("n2", 1), Stamp("n3", 1));
    HandleAssignedToChange(app, order0, "A", st);
    var order1 := order0.(assignedTo := Some("A"));
    App.ReplaceThenFind([order0], order1);
    HandleAssignedToChange(app, order1, "An", st);
  }

  /** The three labels a status pill can show. */
  datatype Pill = ProductionOk | DesignOk | Pending

  /**
   * `renderStatusPill` (OrderDetail.tsx:80-88): production complete wins over
   * design complete, which wins over pending.
   */
  function RenderStatusPill(v: ItemValue): (p: Pill)
    ensures p == ProductionOk <==> v.isProductionComplete
    ensures p == DesignOk <==> !v.isProductionComplete && v.isDesignComplete
    ensures p == Pending <==> !v.isProductionComplete && !v.isDesignComplete
  {
    if v.isProductionComplete then ProductionOk
    else if v.isDesignComplete then DesignOk
    else Pending
  }

  /** When every pill of an undelivered order reads "Producción OK", its card reads "Producción Finalizada". */
  lemma AllPillsProducedMeansProductionFinished(o: OrderValue)
    requires |o.items| > 0 && !Truthy(o.deliveryDate)
    requires forall k :: 0 <= k < |o.items| ==> RenderStatusPill(o.items[k]) == ProductionOk
    ensures OrderList.GetStatus(o) == OrderList.ProductionFinished
  {
  }

  /** `JSON.parse(JSON.stringify(order))`: the same values in new, distinct item objects. */
  method DeepCopy(order: Order) returns (copy: Order)
    ensures View(copy) == View(order)
    ensures forall it :: it in copy.items ==> fresh(it)
    ensures forall i, j :: 0 <= i < j < |copy.items| ==> copy.items[i] != copy.items[j]
  {
    var items: seq<OrderItem> := [];
    var k := 0;
    while k < |order.items|
      invariant 0 <= k <= |order.items| && |items| == k
      invariant forall j :: 0 <= j < k ==> fresh(items[j]) && Snapshot(items[j]) == Snapshot(order.items[j])
      invariant forall i, j :: 0 <= i < j < k ==> items[i] != items[j]
    {
      var src := order.items[k];
      var item := new OrderItem(src.id, src.size, src.detail1, src.detail2,
                                src.isDesignComplete, src.isProductionComplete);
      items := items + [item];
      k := k + 1;
    }
    copy := order.(items := items);
    assert Snapshots(copy.items) == Snapshots(order.items);
  }

  /** The order fields the edit form changes as text. */
  datatype OrderTextField = Name | Client | Details

  function WithText<I>(o: OrderRecord<I>, field: OrderTextField, value: string): (r: OrderRecord<I>)
    ensures field == Name ==> r == o.(name := value)
    ensures field == Client ==> r == o.(client := value)
    ensures field == Details ==> r == o.(details := value)
  {
    match field
    case Name => o.(name := value)
    case Client => o.(client := value)
    case Details => o.(details := value)
  }

  /** The editable deep copy the Admin edits and saves as a whole. */
  class OrderEditor {
    var editableOrder: Order

    /** `useState(JSON.parse(JSON.stringify(order)))` (OrderDetail.tsx:15). */
    constructor (order: Order)
      ensures View(editableOrder) == View(order)
      ensures forall it :: it in editableOrder.items ==> fresh(it)
    {
      var copy := DeepCopy(order);
      editableOrder := copy;
    }

    /** The effect at OrderDetail.tsx:17-20, run whenever the shown order changes. */
    method Resync(order: Order)
      modifies this
      ensures View(editableOrder) == View(order)
      ensures forall it :: it in editableOrder.items ==> fresh(it)
    {
      editableOrder := DeepCopy(order);
    }

    /** `handleEditChange` (OrderDetail.tsx:43-46): one text field of the copy. */
    method HandleEditChange(field: OrderTextField, value: string)
      modifies this
      ensures editableOrder == WithText(old(editableOrder), field, value)
    {
      editableOrder := WithText(editableOrder, field, value);
    }

    /**
     * `handleItemEditChange` (OrderDetail.tsx:48-52): the array is copied but
     * the item object at `index` is changed in place; nothing else changes.
     */
    method HandleItemEditChange(index: nat, field: ItemField, value: string)
      requires index < |editableOrder.items|
      modifies this, editableOrder.items[index]
      ensures editableOrder == old(editableOrder)
      ensures Snapshot(editableOrder.items[index]) ==
                SetText(old(Snapshot(editableOrder.items[index])), field, value)
    {
      var newItems := editableOrder.items;
      var item := newItems[index];
      match field {
        case Size => item.size := value;
        case Detail1 => item.detail1 := value;
        case Detail2 => item.detail2 := value;
      }
      editableOrder := editableOrder.(items := newItems);
    }

    /** `handleAddItem` (OrderDetail.tsx:54-64): one blank, pending item at the end. */
    method HandleAddItem(newId: string)
      modifies this
      ensures View(editableOrder) ==
                old(View(editableOrder)).(items := old(View(editableOrder)).items
                                                   + [ItemValue(newId, "", "", "", false, false)])
      ensures editableOrder.items[..|old(editableOrder.items)|] == old(editableOrder.items)
      ensures fresh(editableOrder.items[|old(editableOrder.items)|])
    {
      var newItem := new OrderItem(newId, "", "", "", false, false);
      editableOrder := editableOrder.(items := editableOrder.items + [newItem]);
      assert Snapshots(editableOrder.items) == old(Snapshots(editableOrder.items)) + [Snapshot(newItem)];
    }

    /** `handleRemoveItem` (OrderDetail.tsx:66-69). */
    method HandleRemoveItem(index: int)
      modifies this
      ensures editableOrder == old(editableOrder).(items := RemoveAt(old(editableOrder.items), index))
    {
      var newItems := RemoveAt(editableOrder.items, index);
      editableOrder := editableOrder.(items := newItems);
    }

    /** `saveChanges` (OrderDetail.tsx:71-74): the whole edited order goes to the store. */
    method SaveChanges(app: App.Store, st: App.Stamps)
      modifies app
      ensures App.FindById(old(app.orders), editableOrder.id).None? ==>
                app.orders == old(app.orders) && app.notifications == old(app.notifications)
      ensures App.FindById(old(app.orders), editableOrder.id).Some? ==>
                app.orders == App.ReplaceById(old(app.orders), editableOrder) &&
                app.notifications ==
                  App.TransitionNotices(View(App.FindById(old(app.orders), editableOrder.id).value),
                                        View(editableOrder), st)
                  + old(app.notifications)
      ensures app.currentUserRole == old(app.currentUserRole) && app.selectedOrderId == old(app.selectedOrderId)
    {
      app.UpdateOrder(editableOrder, st);
    }
  }

  /**
   * Editing an item of the copy leaves the stored order as it was: the copy's
   * items are new objects, so the in-place change cannot reach the store.
   */
  method EditingTheCopyLeavesTheOrder(order: Order, field: ItemField, value: string)
    returns (editor: OrderEditor)
    requires |order.items| > 0
    ensures View(order) == old(View(order))
    ensures |editor.editableOrder.items| == |order.items|
    ensures Snapshot(editor.editableOrder.items[0]) == SetText(Snapshot(order.items[0]), field, value)
  {
    editor := new OrderEditor(order);
    assert Snapshots(editor.editableOrder.items)[0] == Snapshots(order.items)[0];
    assert editor.editableOrder.items[0] in editor.editableOrder.items;
    editor.HandleItemEditChange(0, field, value);
  }
}
