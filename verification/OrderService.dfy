/** The orders service as code: an order and its request event are inserted in one transaction. */
module OrdersService {
  import opened Collections
  import opened Outbox
  import opened Protocol

  /** Which statement of the transaction raises an exception. */
  datatype OrderFault = NoOrderFault | OrderInsertFails | EventInsertFails | OrderCommitFails

  datatype OrderTables = OrderTables(orders: map<OrderId, Order>, events: map<EventId, Row<PaymentRequest>>)

  /** What the caller hands in, and the identifiers its random source generates. */
  datatype NewOrder = NewOrder(
    userId: UserId, amount: int, description: string, orderId: OrderId, eventId: EventId, now: int)

  /** The primary keys reject reused identifiers and the column an amount out of its bounds. */
  predicate OrderCommits(t: OrderTables, n: NewOrder, fault: OrderFault) {
    fault.NoOrderFault? && n.orderId !in t.orders && n.eventId !in t.events && -MAX_CENTS <= n.amount <= MAX_CENTS
  }

  function OrderOf(n: NewOrder): Order { Order(n.userId, n.amount, n.description, "NEW", n.now) }

  /** The committed tables after one call: both rows or neither. */
  function Placed(t: OrderTables, n: NewOrder, fault: OrderFault): OrderTables {
    if OrderCommits(t, n, fault) then
      OrderTables(
        t.orders[n.orderId := OrderOf(n)],
        t.events[n.eventId := Row(PAYMENT_REQUEST, RequestFor(n.orderId, OrderOf(n)), Pending, n.now)])
    else t
  }

  class OrdersDatabase {
    var orders: map<OrderId, Order>
    var events: map<EventId, Row<PaymentRequest>>

    function Tables(): OrderTables
      reads this
    {
      OrderTables(orders, events)
    }

    constructor ()
      ensures orders == map[] && events == map[]
    {
      orders, events := map[], map[];
    }
  }

  class OrderService {
    const db: OrdersDatabase

    constructor (db: OrdersDatabase)
      ensures this.db == db
    {
      this.db := db;
    }

    method CreateOrder(n: NewOrder, fault: OrderFault) returns (r: Result<Order, string>)
      modifies db
      ensures r.Ok? <==> fault.NoOrderFault? && n.orderId !in old(db.orders) && n.eventId !in old(db.events)
                         && -MAX_CENTS <= n.amount <= MAX_CENTS
      ensures r.Ok? ==>
        && r.value == Order(n.userId, n.amount, n.description, "NEW", n.now)
        && db.orders == old(db.orders)[n.orderId := r.value]
        && db.events == old(db.events)[
             n.eventId := Row("PAYMENT_REQUEST", PaymentRequest(n.orderId, n.userId, n.amount), Pending, n.now)]
      ensures r.Error? ==> db.orders == old(db.orders) && db.events == old(db.events)
      ensures db.Tables() == Placed(old(db.Tables()), n, fault)
    {
      var orders, events := db.orders, db.events;
      var order := Order(n.userId, n.amount, n.description, "NEW", n.now);
      if fault.OrderInsertFails? || n.orderId in orders || n.amount < -MAX_CENTS || n.amount > MAX_CENTS {
        return Error("insert into orders");
      }
      orders := orders[n.orderId := order];
      var request := PaymentRequest(n.orderId, n.userId, n.amount);
      if fault.EventInsertFails? || n.eventId in events {
        return Error("insert into outbox_events");
      }
      events := events[n.eventId := Row(PAYMENT_REQUEST, request, Pending, n.now)];
      if fault.OrderCommitFails? {
        return Error("commit");
      }
      db.orders, db.events := orders, events;
      r := Ok(order);
    }
  }
}
