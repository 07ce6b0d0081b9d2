/**
 * The entities of the order tracker (types.ts): roles, order items, orders
 * and notifications, plus the few value helpers every component shares.
 *
 * Order items are objects that the application mutates in place, so they are
 * a class. An order is never mutated in place (every change builds a new
 * record with a spread copy), so it is a datatype; its item list holds item
 * references, which is what makes a shallow copy of an order share its items.
 */
module Types {

  datatype Option<T> = None | Some(value: T)

  /** JavaScript truthiness of a nullable string: `null` and `""` are both falsy. */
  predicate Truthy(s: Option<string>) {
    s.Some? && s.value != ""
  }

  /** The three roles of the application (Admin = 'A', Designer = 'B', Producer = 'C'). */
  datatype UserRole = Admin | Designer | Producer

  /** The two completion flags an item carries. */
  datatype Stage = Design | Production

  /** The free-text fields of an item that the edit forms change. */
  datatype ItemField = Size | Detail1 | Detail2

  /** One garment line of an order, a mutable object shared by reference. */
  class OrderItem {
    const id: string
    var size: string
    var detail1: string
    var detail2: string
    var isDesignComplete: bool
    var isProductionComplete: bool

    constructor (id: string, size: string, detail1: string, detail2: string,
                 isDesignComplete: bool, isProductionComplete: bool)
      ensures this.id == id && this.size == size
      ensures this.detail1 == detail1 && this.detail2 == detail2
      ensures this.isDesignComplete == isDesignComplete
      ensures this.isProductionComplete == isProductionComplete
    {
      this.id := id;
      this.size := size;
      this.detail1 := detail1;
      this.detail2 := detail2;
      this.isDesignComplete := isDesignComplete;
      this.isProductionComplete := isProductionComplete;
    }
  }

  /** The value an item object holds at one moment. */
  datatype ItemValue = ItemValue(id: string, size: string, detail1: string, detail2: string,
                                 isDesignComplete: bool, isProductionComplete: bool)

  /** An order whose items are of type I: references as held, or values as seen. */
  datatype OrderRecord<I> = OrderRecord(
    id: string,
    name: string,
    client: string,
    details: string,
    items: seq<I>,
    startDate: Option<string>,
    designEndDate: Option<string>,
    productionEndDate: Option<string>,
    deliveryDate: Option<string>,
    assignedTo: Option<string>)

  /** An order as the application holds it: its items are shared objects. */
  type Order = OrderRecord<OrderItem>

  /** An order as seen at one moment, every item replaced by its current value. */
  type OrderValue = OrderRecord<ItemValue>

  /**
   * A notification. Timestamps are the instants the clock gives, as integers
   * (the application keeps them as ISO strings and compares their instants).
   */
  datatype Notification = Notification(id: string, message: string, orderId: string,
                                       timestamp: int, isRead: bool, targetRoles: seq<UserRole>)

  /** The fresh id and the clock reading that creating one record draws. */
  datatype Stamp = Stamp(id: string, timestamp: int)

  function Snapshot(item: OrderItem): (v: ItemValue)
    reads item
    ensures v.id == item.id && v.size == item.size
    ensures v.detail1 == item.detail1 && v.detail2 == item.detail2
    ensures v.isDesignComplete == item.isDesignComplete
    ensures v.isProductionComplete == item.isProductionComplete
  {
    ItemValue(item.id, item.size, item.detail1, item.detail2,
              item.isDesignComplete, item.isProductionComplete)
  }

  function Snapshots(items: seq<OrderItem>): (vs: seq<ItemValue>)
    reads items
    ensures |vs| == |items|
    ensures forall k :: 0 <= k < |items| ==> vs[k] == Snapshot(items[k])
  {
    seq(|items|, k reads items requires 0 <= k < |items| => Snapshot(items[k]))
  }

  /** What an order looks like now: the same fields, each item read through its reference. */
  function View(o: Order): (v: OrderValue)
    reads o.items
    ensures v.id == o.id && v.name == o.name && v.client == o.client && v.details == o.details
    ensures v.startDate == o.startDate && v.designEndDate == o.designEndDate
    ensures v.productionEndDate == o.productionEndDate && v.deliveryDate == o.deliveryDate
    ensures v.assignedTo == o.assignedTo
    ensures v.items == Snapshots(o.items)
  {
    OrderRecord(o.id, o.name, o.client, o.details, Snapshots(o.items),
                o.startDate, o.designEndDate, o.productionEndDate, o.deliveryDate, o.assignedTo)
  }

  /** Whether an item carries the completion flag of the given stage. */
  predicate Done(v: ItemValue, stage: Stage) {
    match stage
    case Design => v.isDesignComplete
    case Production => v.isProductionComplete
  }

  /** The item with the flag of one stage inverted and everything else kept. */
  function Flip(v: ItemValue, stage: Stage): (r: ItemValue)
    ensures Done(r, stage) == !Done(v, stage)
    ensures Done(r, OtherStage(stage)) == Done(v, OtherStage(stage))
    ensures r.id == v.id && r.size == v.size && r.detail1 == v.detail1 && r.detail2 == v.detail2
  {
    match stage
    case Design => v.(isDesignComplete := !v.isDesignComplete)
    case Production => v.(isProductionComplete := !v.isProductionComplete)
  }

  function OtherStage(stage: Stage): Stage {
    match stage
    case Design => Production
    case Production => Design
  }

  function TextOf(v: ItemValue, field: ItemField): string {
    match field
    case Size => v.size
    case Detail1 => v.detail1
    case Detail2 => v.detail2
  }

  /** The item with one text field set and everything else kept. */
  function SetText(v: ItemValue, field: ItemField, value: string): (r: ItemValue)
    ensures TextOf(r, field) == value
    ensures forall g :: g != field ==> TextOf(r, g) == TextOf(v, g)
    ensures r.id == v.id
    ensures r.isDesignComplete == v.isDesignComplete && r.isProductionComplete == v.isProductionComplete
  {
    match field
    case Size => v.(size := value)
    case Detail1 => v.(detail1 := value)
    case Detail2 => v.(detail2 := value)
  }

  /**
   * `s.filter((_, i) => i !== index)`: keep every element whose position is
   * not `index`. Any integer is accepted; one outside the list removes nothing.
   */
  function RemoveAt<T>(s: seq<T>, index: int): (r: seq<T>)
    ensures 0 <= index < |s| ==> r == s[..index] + s[index + 1..]
    ensures !(0 <= index < |s|) ==> r == s
  {
    if s == [] then []
    else (if index == 0 then [] else [s[0]]) + RemoveAt(s[1..], index - 1)
  }
}
