/**
 * The status rules of the order history page
 * (frontend/src/app/components/order-history/order-history.component.ts) over
 * the six order statuses of frontend/src/app/models/order.ts.
 *
 * An order's status arrives from the server as a string; it is kept as one here,
 * so that the badge mapping's fallback for strings outside the enumeration stays visible.
 */
module OrderHistory {
  import opened Wrappers

  datatype OrderStatus = Pending | Processing | Shipped | Delivered | Completed | Cancelled

  /** The wire spelling of each status. */
  function StatusName(s: OrderStatus): string
  {
    match s
    case Pending => "PENDING"
    case Processing => "PROCESSING"
    case Shipped => "SHIPPED"
    case Delivered => "DELIVERED"
    case Completed => "COMPLETED"
    case Cancelled => "CANCELLED"
  }

  /** ORDER_STATUSES, in declaration order. */
  const OrderStatuses: seq<OrderStatus> := [Pending, Processing, Shipped, Delivered, Completed, Cancelled]

  /** Reads a status string against ORDER_STATUSES. */
  function ParseStatus(name: string): (r: Option<OrderStatus>)
    ensures r.Some? ==> StatusName(r.value) == name && r.value in OrderStatuses
    ensures r.None? <==> forall s :: StatusName(s) != name
  {
    if name == "PENDING" then Some(Pending)
    else if name == "PROCESSING" then Some(Processing)
    else if name == "SHIPPED" then Some(Shipped)
    else if name == "DELIVERED" then Some(Delivered)
    else if name == "COMPLETED" then Some(Completed)
    else if name == "CANCELLED" then Some(Cancelled)
    else None
  }

  /** The six spellings are distinct, so a status string names at most one status. */
  lemma StatusNameInjective(a: OrderStatus, b: OrderStatus)
    ensures StatusName(a) == StatusName(b) ==> a == b
  {
    if StatusName(a) == StatusName(b) {
      assert ParseStatus(StatusName(a)) == Some(a);
      assert ParseStatus(StatusName(b)) == Some(b);
    }
  }

  /** The fields of an order these rules read (the rest is display data). */
  datatype Order = Order(id: int, totalAmount: int, status: string)

  /** canCancel: only orders not yet shipped may be cancelled. */
  predicate CanCancel(order: Order)
  {
    order.status == "PENDING" || order.status == "PROCESSING"
  }

  /** canCancel holds exactly for the statuses Pending and Processing. */
  lemma CanCancelIff(order: Order)
    ensures CanCancel(order) <==> ParseStatus(order.status) in {Some(Pending), Some(Processing)}
  {
  }

  const DefaultClass := "text-bg-secondary"

  /** getStatusClass: the badge style for a status string. */
  function StatusClass(status: string): (c: string)
    ensures c == DefaultClass <==> ParseStatus(status).None?
  {
    match status
    case "PENDING" => "text-bg-warning"
    case "PROCESSING" => "text-bg-primary"
    case "SHIPPED" => "text-bg-info"
    case "DELIVERED" => "text-bg-success"
    case "COMPLETED" => "text-bg-success"
    case "CANCELLED" => "text-bg-danger"
    case _ => DefaultClass
  }

  /** Every status in ORDER_STATUSES gets its own style; the fallback is unreachable for them. */
  lemma StatusClassTotal()
    ensures forall s :: s in OrderStatuses ==> StatusClass(StatusName(s)) != DefaultClass
  {
    forall s | s in OrderStatuses ensures StatusClass(StatusName(s)) != DefaultClass {
      assert ParseStatus(StatusName(s)) == Some(s);
    }
  }

  /** The badge style of each status, read through its wire spelling. */
  lemma StatusClassTable(s: OrderStatus)
    ensures StatusClass(StatusName(s)) == match s
      case Pending => "text-bg-warning"
      case Processing => "text-bg-primary"
      case Shipped => "text-bg-info"
      case Delivered | Completed => "text-bg-success"
      case Cancelled => "text-bg-danger"
  {
  }

  /** Two statuses share a badge style only when both are Delivered or Completed. */
  lemma StatusClassShared(a: OrderStatus, b: OrderStatus)
    ensures StatusClass(StatusName(a)) == StatusClass(StatusName(b))
        <==> a == b || (a in {Delivered, Completed} && b in {Delivered, Completed})
  {
    StatusClassTable(a);
    StatusClassTable(b);
  }

  /** The cancellable orders are exactly those shown with the warning or primary style. */
  lemma CanCancelByClass(order: Order)
    ensures CanCancel(order) <==> StatusClass(order.status) in {"text-bg-warning", "text-bg-primary"}
  {
  }

  /** How the confirmation dialog closed: with a result value, or dismissed. */
  datatype ModalResult = Closed(result: string) | Dismissed

  /**
   * openCancelModal: the id whose cancellation is requested (cancelOrder), if any.
   * An order that cannot be cancelled never opens the dialog.
   */
  function OpenCancelModal(order: Order, outcome: ModalResult): (cancelled: Option<int>)
    ensures cancelled.Some? <==> CanCancel(order) && outcome == Closed("confirm")
    ensures cancelled.Some? ==> cancelled.value == order.id
  {
    if !CanCancel(order) then None
    else
      match outcome
      case Closed(result) => if result == "confirm" then Some(order.id) else None
      case Dismissed => None
  }
}
