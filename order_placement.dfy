/**
 * The order-creation endpoint: validate the request, reserve stock item by
 * item inside one transaction, price the order, persist it, and commit, or
 * abort so that nothing written for earlier items survives.
 */
module OrderPlacement {
  import opened Wrappers
  import opened Inventory
  import opened Pricing
  import opened Reservation

  datatype CustomerInfo = CustomerInfo(fullName: string, mobile: string)

  /** The delivery address; `state` is None when the request leaves it out. */
  datatype DeliveryAddress = DeliveryAddress(address: string, city: string, state: Option<string>, pincode: string)

  /**
   * The request body. A missing `customerInfo` or `deliveryAddress` is None;
   * `selectedItems` is None when it is missing or not an array; an empty
   * `userEmail` stands for a missing one.
   */
  datatype OrderRequest = OrderRequest(
    userEmail: string,
    customerInfo: Option<CustomerInfo>,
    deliveryAddress: Option<DeliveryAddress>,
    selectedItems: Option<seq<LineItemRequest>>
  )

  /** The persisted order document. */
  datatype Order = Order(
    orderNumber: string,
    userEmail: string,
    customerName: string,
    customerPhone: string,
    deliveryAddress: DeliveryAddress,
    items: seq<OrderLineItem>,
    subtotal: int,
    deliveryCharge: int,
    totalAmount: int,
    status: string,
    orderDate: nat
  )

  /** What a successful request answers with. */
  datatype Receipt = Receipt(orderNumber: string, totalAmount: int)

  /** The committed contents of the database that an order touches. */
  datatype StoreState = StoreState(catalog: Catalog, ledger: Ledger, orders: seq<Order>)

  /** The answer to a request together with the committed state after it. */
  datatype Outcome = Outcome(response: Result<Receipt, OrderError>, store: StoreState)

  /** The route's first guard: all four fields present and `selectedItems` an array. */
  predicate HasRequiredFields(req: OrderRequest) {
    && req.userEmail != ""
    && req.customerInfo.Some?
    && req.deliveryAddress.Some?
    && req.selectedItems.Some?
  }

  /** A transaction starts from the committed tables with no lines and a zero subtotal. */
  function Begin(s: StoreState): Txn {
    Txn(s.catalog, s.ledger, [], 0)
  }

  /** The order document built from the reserved lines: delivery by weight, total = subtotal + delivery, status "pending". */
  function NewOrder(req: OrderRequest, orderNumber: string, lines: seq<OrderLineItem>, subtotal: int, state: string, now: nat): (o: Order)
    requires HasRequiredFields(req)
    ensures o.totalAmount == o.subtotal + o.deliveryCharge
    ensures o.deliveryCharge % RatePerKg(state) == 0
    ensures (o.deliveryCharge / RatePerKg(state) - 1) * 1000 < TotalWeight(o.items) <= (o.deliveryCharge / RatePerKg(state)) * 1000
    ensures o.status == "pending" && o.orderNumber == orderNumber && o.items == lines && o.subtotal == subtotal
    ensures o.userEmail == req.userEmail && o.deliveryAddress == req.deliveryAddress.value && o.orderDate == now
    ensures o.customerName == req.customerInfo.value.fullName && o.customerPhone == req.customerInfo.value.mobile
  {
    var deliveryCharge := DeliveryCharge(state, lines);
    Order(orderNumber, req.userEmail, req.customerInfo.value.fullName, req.customerInfo.value.mobile,
          req.deliveryAddress.value, lines, subtotal, deliveryCharge, subtotal + deliveryCharge, "pending", now)
  }

  /**
   * What one request does to the store. Every failure, whether it is found
   * before the transaction opens or inside it, leaves the committed state as
   * it was; a success commits the reserved tables and ledger and appends
   * exactly one order.
   */
  function PlaceOrderSpec(s: StoreState, req: OrderRequest, timestamp: string, suffix: string, now: nat): (o: Outcome)
    ensures o.response.Failure? ==> o.store == s
    ensures o.response.Success? ==> |o.store.orders| == |s.orders| + 1 && o.store.orders[..|s.orders|] == s.orders
  {
    if !HasRequiredFields(req) then Outcome(Failure(MissingFields), s)
    else if req.selectedItems.value == [] then Outcome(Failure(NoItemsSelected), s)
    else match ReserveFrom(Begin(s), req.selectedItems.value, now)
      case Failure(e) => Outcome(Failure(e), s)
      case Success(done) =>
        match req.deliveryAddress.value.state
        case None => Outcome(Failure(MissingState), s)
        case Some(state) =>
          var order := NewOrder(req, OrderNumber(timestamp, suffix), done.lines, done.subtotal, state, now);
          Outcome(Success(Receipt(order.orderNumber, order.totalAmount)),
                  StoreState(done.catalog, done.ledger, s.orders + [order]))
  }

  /** A request without its required fields or with no items is refused before any transaction and changes nothing. */
  lemma RejectedRequestChangesNothing(s: StoreState, req: OrderRequest, timestamp: string, suffix: string, now: nat)
    ensures var o := PlaceOrderSpec(s, req, timestamp, suffix, now);
      var missing := req.userEmail == "" || req.customerInfo.None? || req.deliveryAddress.None? || req.selectedItems.None?;
      && (missing ==> o.store == s && o.response == Failure(MissingFields))
      && (!missing && req.selectedItems.value == [] ==> o.store == s && o.response == Failure(NoItemsSelected))
  {
  }

  /**
   * An order is placed exactly when the request is complete, every item is
   * valid and names an existing product, no product is asked for more in total
   * than it has, and the address has a state.
   */
  lemma PlaceOrderSucceedsIff(s: StoreState, req: OrderRequest, timestamp: string, suffix: string, now: nat)
    ensures PlaceOrderSpec(s, req, timestamp, suffix, now).response.Success? <==>
      && HasRequiredFields(req)
      && req.selectedItems.value != []
      && Feasible(s.catalog, req.selectedItems.value)
      && req.deliveryAddress.value.state.Some?
  {
    if HasRequiredFields(req) && req.selectedItems.value != [] {
      ReserveSucceedsIff(Begin(s), req.selectedItems.value, now);
    }
  }

  /**
   * A complete request whose items all go through but whose address has no
   * state is refused with `MissingState`, after the loop, and changes nothing.
   */
  lemma MissingStateRefused(s: StoreState, req: OrderRequest, timestamp: string, suffix: string, now: nat)
    ensures var o := PlaceOrderSpec(s, req, timestamp, suffix, now);
      (&& HasRequiredFields(req)
       && req.selectedItems.value != []
       && Feasible(s.catalog, req.selectedItems.value)
       && req.deliveryAddress.value.state.None?)
      ==> o.response == Failure(MissingState) && o.store == s
  {
    if HasRequiredFields(req) && req.selectedItems.value != [] {
      ReserveSucceedsIff(Begin(s), req.selectedItems.value, now);
    }
  }

  /**
   * A complete request with items that are not feasible is refused with the
   * error of its first failing item: the items before position i all went
   * through, and item i, checked against the stock they left, raised the
   * error the response carries. Nothing changes.
   */
  lemma InfeasibleOrderError(s: StoreState, req: OrderRequest, timestamp: string, suffix: string, now: nat) returns (i: nat)
    requires HasRequiredFields(req) && req.selectedItems.value != []
    requires !Feasible(s.catalog, req.selectedItems.value)
    ensures var o := PlaceOrderSpec(s, req, timestamp, suffix, now);
      var items := req.selectedItems.value;
      && o.response.Failure?
      && o.store == s
      && i < |items|
      && ReserveFrom(Begin(s), items[..i], now).Success?
      && ReserveItem(ReserveFrom(Begin(s), items[..i], now).value, items[i], now) == Failure(o.response.error)
  {
    ReserveSucceedsIff(Begin(s), req.selectedItems.value, now);
    i := FirstFailure(Begin(s), req.selectedItems.value, now);
  }

  /**
   * After a placed order each product's stock is its stock before minus the
   * total quantity ordered of it; a product that was ordered ends with a stock
   * that is not negative; a product that was not ordered is unchanged; and no
   * product appears or disappears.
   */
  lemma PlacedOrderStock(s: StoreState, req: OrderRequest, timestamp: string, suffix: string, now: nat, k: ProductKey)
    requires PlaceOrderSpec(s, req, timestamp, suffix, now).response.Success?
    ensures var after := PlaceOrderSpec(s, req, timestamp, suffix, now).store.catalog;
      var items := req.selectedItems.value;
      && (after.Has(k) <==> s.catalog.Has(k))
      && (s.catalog.Has(k) ==> after.At(k) == s.catalog.At(k).(inStock := s.catalog.At(k).inStock - Demand(items, k)))
      && (Refers(items, k) ==> after.Has(k) && 0 <= after.At(k).inStock < s.catalog.At(k).inStock)
      && (!Refers(items, k) && s.catalog.Has(k) ==> after.At(k) == s.catalog.At(k))
  {
    ReserveStockAt(Begin(s), req.selectedItems.value, now, k);
    if !Refers(req.selectedItems.value, k) {
      UnreferencedHasNoDemand(req.selectedItems.value, k);
    }
  }

  /** A placed order never drives a product's stock below zero when none was below zero before. */
  lemma PlacedOrderKeepsStockNonNegative(s: StoreState, req: OrderRequest, timestamp: string, suffix: string, now: nat)
    requires PlaceOrderSpec(s, req, timestamp, suffix, now).response.Success?
    requires forall k :: s.catalog.Has(k) ==> s.catalog.At(k).inStock >= 0
    ensures var after := PlaceOrderSpec(s, req, timestamp, suffix, now).store.catalog;
      forall k :: after.Has(k) ==> after.At(k).inStock >= 0
  {
    var after := PlaceOrderSpec(s, req, timestamp, suffix, now).store.catalog;
    forall k | after.Has(k) ensures after.At(k).inStock >= 0 {
      PlacedOrderStock(s, req, timestamp, suffix, now, k);
    }
  }

  /**
   * After a placed order the ledger entry of every ordered product exists and
   * holds that product's new stock; entries of products not ordered are as before.
   */
  lemma PlacedOrderLedgerInSync(s: StoreState, req: OrderRequest, timestamp: string, suffix: string, now: nat, k: ProductKey)
    requires PlaceOrderSpec(s, req, timestamp, suffix, now).response.Success?
    ensures var after := PlaceOrderSpec(s, req, timestamp, suffix, now).store;
      if Refers(req.selectedItems.value, k) then
        && after.catalog.Has(k) && k in after.ledger
        && after.ledger[k].currentStock == after.catalog.At(k).inStock
        && after.ledger[k].lastUpdated == now
      else
        && (k in after.ledger <==> k in s.ledger)
        && (k in s.ledger ==> after.ledger[k] == s.ledger[k])
  {
    ReserveLedgerAt(Begin(s), req.selectedItems.value, now, k);
  }

  /**
   * The order a success appends: numbered from the timestamp and suffix,
   * "pending", one line per requested item in input order, each the snapshot
   * of its product at order time; its subtotal is Σ priceAtOrder × quantity,
   * its delivery charge is by weight for its state, its total is their sum,
   * and the response reports that number and total.
   */
  lemma PlacedOrderContents(s: StoreState, req: OrderRequest, timestamp: string, suffix: string, now: nat)
    requires PlaceOrderSpec(s, req, timestamp, suffix, now).response.Success?
    ensures var o := PlaceOrderSpec(s, req, timestamp, suffix, now);
      var order := o.store.orders[|s.orders|];
      var items := req.selectedItems.value;
      && o.response.value == Receipt(order.orderNumber, order.totalAmount)
      && order.orderNumber == OrderNumber(timestamp, suffix)
      && order.status == "pending"
      && order.userEmail == req.userEmail
      && order.customerName == req.customerInfo.value.fullName
      && order.customerPhone == req.customerInfo.value.mobile
      && order.deliveryAddress == req.deliveryAddress.value
      && order.orderDate == now
      && |order.items| == |items|
      && (forall j :: 0 <= j < |items| ==> Resolves(s.catalog, items[j]) && order.items[j] == SnapshotOf(s.catalog, items[j]))
      && order.subtotal == LinesTotal(order.items)
      && order.deliveryCharge == DeliveryCharge(req.deliveryAddress.value.state.value, order.items)
      && order.totalAmount == order.subtotal + order.deliveryCharge
  {
    var items := req.selectedItems.value;
    var t := Begin(s);
    ReserveSubtotal(t, items, now);
    ReserveLines(t, items, now);
    var lines := ReserveFrom(t, items, now).value.lines;
    assert lines == Snapshots(s.catalog, items);
    forall j | 0 <= j < |items| ensures lines[j] == SnapshotOf(s.catalog, items[j]) {
      SnapshotsAt(s.catalog, items, j);
    }
  }

  /**
   * When no product has a negative weight, every line weighs something, so a
   * placed order pays at least one kilogram's rate, and its charge is never
   * above what the same lines would cost to a state outside Gujarat.
   */
  lemma PlacedOrderPaysForWeight(s: StoreState, req: OrderRequest, timestamp: string, suffix: string, now: nat)
    requires PlaceOrderSpec(s, req, timestamp, suffix, now).response.Success?
    requires forall k :: s.catalog.Has(k) ==> s.catalog.At(k).weightInGrams >= 0
    ensures var order := PlaceOrderSpec(s, req, timestamp, suffix, now).store.orders[|s.orders|];
      var state := req.deliveryAddress.value.state.value;
      && TotalWeight(order.items) > 0
      && order.deliveryCharge >= RatePerKg(state)
      && order.deliveryCharge <= CeilKg(TotalWeight(order.items)) * 90
  {
    var order := PlaceOrderSpec(s, req, timestamp, suffix, now).store.orders[|s.orders|];
    var state := req.deliveryAddress.value.state.value;
    var items := req.selectedItems.value;
    PlacedOrderContents(s, req, timestamp, suffix, now);
    forall i | 0 <= i < |order.items|
      ensures order.items[i].weightInGrams > 0 && order.items[i].quantity > 0
    {
      assert order.items[i] == SnapshotOf(s.catalog, items[i]);
    }
    TotalWeightPositive(order.items);
    var grams := TotalWeight(order.items);
    assert order.deliveryCharge == CeilKg(grams) * RatePerKg(state);
    DeliveryChargeMonotone(state, "", 1, grams);
    assert CeilKg(1) == 1;
    assert !IsGujarat("");
    if IsGujarat(state) {
      DeliveryChargeMonotone(state, "", grams, grams);
    }
  }

  /** The database as the route sees it: four product collections, the stock ledger and the orders. */
  class Store {
    var clothes: map<string, Product>
    var toys: map<string, Product>
    var bathItems: map<string, Product>
    var newbornItems: map<string, Product>
    var stockLedger: Ledger
    var orders: seq<Order>

    function State(): StoreState
      reads this
    {
      StoreState(Catalog(clothes, toys, bathItems, newbornItems), stockLedger, orders)
    }

    constructor (initial: StoreState)
      ensures State() == initial
    {
      clothes, toys := initial.catalog.clothes, initial.catalog.toys;
      bathItems, newbornItems := initial.catalog.bathItems, initial.catalog.newbornItems;
      stockLedger, orders := initial.ledger, initial.orders;
    }

    /** `product.save()`: write one product back to its own collection. */
    method SaveProduct(k: ProductKey, p: Product)
      modifies this
      ensures State() == old(State()).(catalog := old(State()).catalog.Put(k, p))
    {
      match k.category {
        case Clothes => clothes := clothes[k.id := p];
        case Toy => toys := toys[k.id := p];
        case Bath => bathItems := bathItems[k.id := p];
        case Newborn => newbornItems := newbornItems[k.id := p];
      }
    }

    /** `abortTransaction`: every write since `saved` was taken is discarded. */
    method Rollback(saved: StoreState)
      modifies this
      ensures State() == saved
    {
      clothes, toys := saved.catalog.clothes, saved.catalog.toys;
      bathItems, newbornItems := saved.catalog.bathItems, saved.catalog.newbornItems;
      stockLedger, orders := saved.ledger, saved.orders;
    }

    /**
     * One pass of the loop over `selectedItems`: validate the item, find its
     * product in the collection its tag selects, check the stock, save the
     * decremented product and upsert its ledger entry, then hand back the
     * order lines and subtotal extended by this item. A failure is what the
     * route throws; it writes nothing.
     */
    method ReserveOne(item: LineItemRequest, now: nat, lines: seq<OrderLineItem>, subtotal: int)
      returns (step: Result<(seq<OrderLineItem>, int), OrderError>)
      modifies this
      ensures var expected := ReserveItem(Txn(old(State()).catalog, old(State()).ledger, lines, subtotal), item, now);
        match expected
        case Failure(e) => step == Failure(e) && State() == old(State())
        case Success(t) =>
          && step == Success((t.lines, t.subtotal))
          && State() == StoreState(t.catalog, t.ledger, old(State()).orders)
    {
      if item.id == "" || item.categoryTag == "" || item.quantity <= 0 {
        return Failure(InvalidItem(item));
      }
      var category := ParseCategory(item.categoryTag);
      if category.None? {
        return Failure(InvalidCategory(item.categoryTag));
      }
      var c := category.value;
      var table: map<string, Product>;
      match c {
        case Clothes => table := clothes;
        case Toy => table := toys;
        case Bath => table := bathItems;
        case Newborn => table := newbornItems;
      }
      if item.id !in table {
        return Failure(ProductNotFound(item.id));
      }
      var product := table[item.id];
      if product.inStock < item.quantity {
        return Failure(InsufficientStock(product.name, product.inStock, item.quantity));
      }
      product := product.(inStock := product.inStock - item.quantity);
      var key := ProductKey(c, item.id);
      SaveProduct(key, product);
      stockLedger := Upsert(stockLedger, key, product, now);
      step := Success((lines + [LineOf(product, c, item.quantity)], subtotal + product.sellingPrice * item.quantity));
    }

    /**
     * The loop over `selectedItems`, inside the open transaction. It returns
     * the order lines and the subtotal, or the first error, in which case it
     * has already rolled back everything written for earlier items.
     */
    method ReserveAll(items: seq<LineItemRequest>, now: nat)
      returns (result: Result<(seq<OrderLineItem>, int), OrderError>)
      modifies this
      ensures var expected := ReserveFrom(Begin(old(State())), items, now);
        match expected
        case Failure(e) => result == Failure(e) && State() == old(State())
        case Success(t) =>
          && result == Success((t.lines, t.subtotal))
          && State() == StoreState(t.catalog, t.ledger, old(State()).orders)
    {
      var saved := State();
      var orderItems: seq<OrderLineItem> := [];
      var subtotal := 0;
      for i := 0 to |items|
        invariant orders == saved.orders
        invariant ReserveFrom(Begin(saved), items, now) ==
                  ReserveFrom(Txn(State().catalog, stockLedger, orderItems, subtotal), items[i..], now)
      {
        assert items[i..][0] == items[i] && items[i..][1..] == items[i + 1..];
        var step := ReserveOne(items[i], now, orderItems, subtotal);
        if step.Failure? {
          Rollback(saved);
          return Failure(step.error);
        }
        orderItems, subtotal := step.value.0, step.value.1;
      }
      assert items[|items|..] == [];
      result := Success((orderItems, subtotal));
    }

    /**
     * The POST handler. `timestamp` is the text of the current time in
     * milliseconds and `suffix` the random part of the order number; `now`
     * stands for the dates written to the ledger and the order.
     */
    method PlaceOrder(req: OrderRequest, timestamp: string, suffix: string, now: nat)
      returns (response: Result<Receipt, OrderError>)
      modifies this
      ensures response.Failure? ==> State() == old(State())
      ensures Outcome(response, State()) == PlaceOrderSpec(old(State()), req, timestamp, suffix, now)
    {
      if !HasRequiredFields(req) {
        return Failure(MissingFields);
      }
      var items := req.selectedItems.value;
      if |items| == 0 {
        return Failure(NoItemsSelected);
      }

      // The transaction opens: an abort restores `saved`.
      var saved := State();
      var reserved := ReserveAll(items, now);
      if reserved.Failure? {
        return Failure(reserved.error);
      }
      var (orderItems, subtotal) := reserved.value;

      var state := req.deliveryAddress.value.state;
      if state.None? {
        Rollback(saved);
        return Failure(MissingState);
      }
      var order := NewOrder(req, OrderNumber(timestamp, suffix), orderItems, subtotal, state.value, now);
      orders := orders + [order];
      response := Success(Receipt(order.orderNumber, order.totalAmount));
    }
  }
}
