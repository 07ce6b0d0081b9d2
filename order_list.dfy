/**
 * The order card of the order list (components/OrderList.tsx): how many
 * items are design- and production-complete, and the status the card shows.
 */
module OrderList {
  import opened Types
  import App

  /** `items.filter(item => <flag of stage>).length` (OrderList.tsx:15-16). */
  function CountDone(items: seq<ItemValue>, stage: Stage): (c: nat)
    ensures c <= |items|
  {
    if items == [] then 0
    else (if Done(items[0], stage) then 1 else 0) + CountDone(items[1..], stage)
  }

  /** A count reaches the number of items exactly when every item carries the flag. */
  lemma {:induction false} CountDoneReachesTotal(items: seq<ItemValue>, stage: Stage)
    ensures CountDone(items, stage) == |items| <==> App.EveryDone(items, stage)
  {
    if items != [] {
      CountDoneReachesTotal(items[1..], stage);
    }
  }

  /** The four statuses a card can show. */
  datatype Status = Delivered | ProductionFinished | DesignFinished | InProgress

  function StatusLabel(status: Status): string {
    match status
    case Delivered => "Entregado"
    case ProductionFinished => "Producción Finalizada"
    case DesignFinished => "Diseño Finalizado"
    case InProgress => "En Proceso"
  }

  /** The four statuses read differently on the card. */
  lemma StatusLabelsDiffer(a: Status, b: Status)
    requires a != b
    ensures StatusLabel(a) != StatusLabel(b)
  {
  }

  /**
   * `getStatus` (OrderList.tsx:21-26): a delivery date wins; otherwise a fully
   * produced order, then a fully designed one; anything else is in process.
   * "Fully" agrees with the rules that raise notifications.
   */
  function GetStatus(o: OrderValue): (status: Status)
    ensures Truthy(o.deliveryDate) ==> status == Delivered
    ensures !Truthy(o.deliveryDate) ==> (status == ProductionFinished <==> App.AllProduced(o))
    ensures !Truthy(o.deliveryDate) && !App.AllProduced(o) ==>
              (status == DesignFinished <==> App.AllDesigned(o))
    ensures status == InProgress <==>
              !Truthy(o.deliveryDate) && !App.AllProduced(o) && !App.AllDesigned(o)
    ensures o.items == [] && !Truthy(o.deliveryDate) ==> status == InProgress
  {
    var totalItems := |o.items|;
    var designComplete := CountDone(o.items, Design);
    var productionComplete := CountDone(o.items, Production);
    CountDoneReachesTotal(o.items, Design);
    CountDoneReachesTotal(o.items, Production);
    if Truthy(o.deliveryDate) then Delivered
    else if productionComplete == totalItems && totalItems > 0 then ProductionFinished
    else if designComplete == totalItems && totalItems > 0 then DesignFinished
    else InProgress
  }

  /** The two completion flags of every item, in order. */
  function Flags(items: seq<ItemValue>): (f: seq<(bool, bool)>)
    ensures |f| == |items|
    ensures forall k :: 0 <= k < |items| ==>
              f[k] == (items[k].isDesignComplete, items[k].isProductionComplete)
  {
    seq(|items|, k requires 0 <= k < |items| => (items[k].isDesignComplete, items[k].isProductionComplete))
  }

  /** The counts see only the flags. */
  lemma {:induction false} CountDoneSeesOnlyFlags(a: seq<ItemValue>, b: seq<ItemValue>, stage: Stage)
    requires Flags(a) == Flags(b)
    ensures CountDone(a, stage) == CountDone(b, stage)
  {
    if a != [] {
      assert Flags(a[1..]) == Flags(a)[1..];
      assert Flags(b[1..]) == Flags(b)[1..];
      assert Flags(a)[0] == Flags(b)[0];
      CountDoneSeesOnlyFlags(a[1..], b[1..], stage);
    }
  }

  /**
   * The status depends on whether there is a delivery date and on the item
   * flags, not on the name, the client, the other dates or the assignee.
   */
  lemma StatusSeesOnlyDeliveryAndFlags(o1: OrderValue, o2: OrderValue)
    requires Truthy(o1.deliveryDate) == Truthy(o2.deliveryDate)
    requires Flags(o1.items) == Flags(o2.items)
    ensures GetStatus(o1) == GetStatus(o2)
  {
    CountDoneSeesOnlyFlags(o1.items, o2.items, Design);
    CountDoneSeesOnlyFlags(o1.items, o2.items, Production);
  }
}
