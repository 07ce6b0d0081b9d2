/**
 * The "new order" form (components/CreateOrderModal.tsx): the rows of items
 * being typed, and the submission that turns them into an order of the store.
 */
module CreateOrderModal {
  import opened Types
  import App
  import OrderList
  import OrderDetail

  /** One row of the form: the three texts of an item, nothing else yet. */
  datatype Row = Row(size: string, detail1: string, detail2: string)

  /** The row the form starts with and `addItem` appends. */
  const BlankRow: Row := Row("", "", "")

  function RowText(r: Row, field: ItemField): string {
    match field
    case Size => r.size
    case Detail1 => r.detail1
    case Detail2 => r.detail2
  }

  /** `{ ...row, [field]: value }`: only that text changes. */
  function SetRowText(r: Row, field: ItemField, value: string): (r': Row)
    ensures RowText(r', field) == value
    ensures forall g :: g != field ==> RowText(r', g) == RowText(r, g)
  {
    match field
    case Size => r.(size := value)
    case Detail1 => r.(detail1 := value)
    case Detail2 => r.(detail2 := value)
  }

  /**
   * The items `items.map(...)` makes of the rows (CreateOrderModal.tsx:45-50):
   * one per row, in order, with the row's texts, a fresh id and both stages
   * pending.
   */
  function NewItemValues(rows: seq<Row>, ids: seq<string>): (vs: seq<ItemValue>)
    requires |ids| == |rows|
    ensures |vs| == |rows|
    ensures forall k :: 0 <= k < |rows| ==>
              vs[k].id == ids[k] && TextOf(vs[k], Size) == rows[k].size &&
              TextOf(vs[k], Detail1) == rows[k].detail1 && TextOf(vs[k], Detail2) == rows[k].detail2
    ensures forall k :: 0 <= k < |rows| ==> !Done(vs[k], Design) && !Done(vs[k], Production)
  {
    seq(|rows|, k requires 0 <= k < |rows| =>
      ItemValue(ids[k], rows[k].size, rows[k].detail1, rows[k].detail2, false, false))
  }

  /** `toISOString().split('T')[0]`: the text before the first 'T'. */
  function DatePart(iso: string): (d: string)
    ensures |d| <= |iso| && d == iso[..|d|]
    ensures 'T' !in d
    ensures |d| < |iso| ==> iso[|d|] == 'T'
  {
    if iso == [] || iso[0] == 'T' then [] else [iso[0]] + DatePart(iso[1..])
  }

  /** The form may be submitted only with a name and a client (CreateOrderModal.tsx:37-40). */
  predicate CanSubmit(name: string, client: string) {
    name != "" && client != ""
  }

  /**
   * The order the store holds after a submission, as a value: the form's
   * texts, the new items, today's date as start date, no other date and no
   * assignee.
   */
  function NewOrderValue(name: string, client: string, details: string, rows: seq<Row>,
                         ids: seq<string>, now: string, orderId: string): (v: OrderValue)
    requires |ids| == |rows|
    ensures v.id == orderId && v.name == name && v.client == client && v.details == details
    ensures v.items == NewItemValues(rows, ids)
    ensures v.startDate == Some(DatePart(now))
    ensures v.designEndDate.None? && v.productionEndDate.None? && v.deliveryDate.None?
    ensures v.assignedTo.None?
  {
    OrderRecord(orderId, name, client, details, NewItemValues(rows, ids),
                Some(DatePart(now)), None, None, None, None)
  }

  /**
   * A new order is in process and every item pill reads pending. Even an
   * order submitted with no rows left is in process, and it stays so: the
   * design and production rules can never fire for it.
   */
  lemma {:induction false} NewOrderIsPending(name: string, client: string, details: string, rows: seq<Row>,
                                             ids: seq<string>, now: string, orderId: string)
    requires |ids| == |rows|
    ensures var v := NewOrderValue(name, client, details, rows, ids, now, orderId);
            && !App.AllDesigned(v) && !App.AllProduced(v)
            && OrderList.GetStatus(v) == OrderList.InProgress
            && forall k :: 0 <= k < |v.items| ==> OrderDetail.RenderStatusPill(v.items[k]) == OrderDetail.Pending
  {
    var v := NewOrderValue(name, client, details, rows, ids, now, orderId);
    if rows != [] {
      assert !v.items[0].isDesignComplete && !v.items[0].isProductionComplete;
    }
  }

  /** An order without items never completes a stage, whatever it is updated to. */
  lemma EmptyOrderNeverCompletes(orig: OrderValue, upd: OrderValue, st: App.Stamps)
    requires upd.items == []
    ensures App.TransitionNotices(orig, upd, st) ==
              if App.AssigneeSet(orig, upd) then [App.AssignmentNotice(upd, upd.assignedTo.value, st)] else []
  {
    assert !App.AllDesigned(upd) && !App.AllProduced(upd);
  }

  /** The item objects of the new order: one new, distinct object per row. */
  method BuildItems(rows: seq<Row>, ids: seq<string>) returns (items: seq<OrderItem>)
    requires |ids| == |rows|
    ensures Snapshots(items) == NewItemValues(rows, ids)
    ensures forall it :: it in items ==> fresh(it)
    ensures forall i, j :: 0 <= i < j < |items| ==> items[i] != items[j]
  {
    items := [];
    var k := 0;
    while k < |rows|
      invariant 0 <= k <= |rows| && |items| == k
      invariant forall j :: 0 <= j < k ==> fresh(items[j])
      invariant forall j :: 0 <= j < k ==>
                  Snapshot(items[j]) == ItemValue(ids[j], rows[j].size, rows[j].detail1, rows[j].detail2, false, false)
      invariant forall i, j :: 0 <= i < j < k ==> items[i] != items[j]
    {
      var item := new OrderItem(ids[k], rows[k].size, rows[k].detail1, rows[k].detail2, false, false);
      items := items + [item];
      k := k + 1;
    }
  }

  /** The three order texts the form edits. */
  datatype FormField = NameField | ClientField | DetailsField

  /** The state of the form between openings of the modal. */
  class CreateOrderForm {
    var name: string
    var client: string
    var details: string
    var rows: seq<Row>

    /** Empty texts and one blank row (CreateOrderModal.tsx:13-18). */
    predicate IsInitial()
      reads this
    {
      name == "" && client == "" && details == "" && rows == [BlankRow]
    }

    constructor ()
      ensures IsInitial()
    {
      name := "";
      client := "";
      details := "";
      rows := [BlankRow];
    }

    /** The `onChange` of the name, client and details inputs. */
    method HandleInput(field: FormField, value: string)
      modifies this
      ensures name == (if field == NameField then value else old(name))
      ensures client == (if field == ClientField then value else old(client))
      ensures details == (if field == DetailsField then value else old(details))
      ensures rows == old(rows)
    {
      match field {
        case NameField => name := value;
        case ClientField => client := value;
        case DetailsField => details := value;
      }
    }

    /** `handleItemChange` (CreateOrderModal.tsx:20-24): one text of one row. */
    method HandleItemChange(index: nat, field: ItemField, value: string)
      requires index < |rows|
      modifies this
      ensures rows == old(rows)[index := SetRowText(old(rows)[index], field, value)]
      ensures name == old(name) && client == old(client) && details == old(details)
    {
      var newItems := rows;
      newItems := newItems[index := SetRowText(newItems[index], field, value)];
      rows := newItems;
    }

    /** `addItem` (CreateOrderModal.tsx:26-28): a blank row at the end. */
    method AddItem()
      modifies this
      ensures rows == old(rows) + [BlankRow]
      ensures name == old(name) && client == old(client) && details == old(details)
    {
      rows := rows + [BlankRow];
    }

    /**
     * `removeItem` (CreateOrderModal.tsx:30-33): drop the row at the index; an
     * index outside the rows drops nothing. The last row can go too.
     */
    method RemoveItem(index: int)
      modifies this
      ensures rows == RemoveAt(old(rows), index)
      ensures name == old(name) && client == old(client) && details == old(details)
    {
      rows := RemoveAt(rows, index);
    }

    /**
     * `handleSubmit` (CreateOrderModal.tsx:35-64). Without a name or a client
     * nothing changes. Otherwise the store gets the new order first, with one
     * new item object per row and the creation notification, and the form
     * goes back to its initial state. `ids` are the item ids and `orderId`
     * the order id `crypto.randomUUID()` returns; `now` is the current time
     * in ISO form.
     */
    method HandleSubmit(app: App.Store, ids: seq<string>, now: string, orderId: string, stamp: Stamp)
      returns (created: bool)
      requires |ids| == |rows|
      modifies this, app
      ensures created <==> CanSubmit(old(name), old(client))
      ensures !created ==> unchanged(this) && unchanged(app)
      ensures created ==>
                && IsInitial()
                && |app.orders| == |old(app.orders)| + 1
                && app.orders[1..] == old(app.orders)
                && View(app.orders[0]) ==
                     NewOrderValue(old(name), old(client), old(details), old(rows), ids, now, orderId)
                && (forall it :: it in app.orders[0].items ==> fresh(it))
                && app.notifications ==
                     [App.NewNotification(App.CreatedMessage(old(name)), orderId, [Designer, Producer], stamp)]
                     + old(app.notifications)
      ensures app.currentUserRole == old(app.currentUserRole)
      ensures app.selectedOrderId == old(app.selectedOrderId)
    {
      if !(name != "" && client != "") {
        return false;
      }
      var items := BuildItems(rows, ids);
      var newOrder := OrderRecord("", name, client, details, items,
                                  Some(DatePart(now)), None, None, None, None);
      ghost var v := View(newOrder);
      app.AddOrder(newOrder, orderId, stamp);
      assert View(app.orders[0]) == v.(id := orderId);
      name := "";
      client := "";
      details := "";
      rows := [BlankRow];
      created := true;
    }
  }
}
