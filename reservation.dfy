/**
 * The route's per-item loop as a pure fold: each requested item is
 * validated, looked up in the table its tag selects, checked against the
 * running stock, saved with its stock decremented, mirrored into the stock
 * ledger, and snapshotted into the order. The first thrown error ends the fold.
 */
module Reservation {
  import opened Wrappers
  import opened Inventory
  import opened Pricing

  /** One element of `selectedItems`; "" stands for a missing id or tag, 0 for a missing quantity. */
  datatype LineItemRequest = LineItemRequest(id: string, categoryTag: string, quantity: int)

  /** The errors the route throws or returns. */
  datatype OrderError =
    | MissingFields                 // a required request field is missing or `selectedItems` is not an array
    | NoItemsSelected               // `selectedItems` is empty
    | InvalidItem(item: LineItemRequest)
    | InvalidCategory(tag: string)
    | ProductNotFound(id: string)
    | InsufficientStock(productName: string, available: int, requested: int)
    | MissingState                  // `deliveryAddress.state` is absent, so lower-casing it throws

  /** The values the loop carries: the product tables and ledger as written so far, the order's lines and the running subtotal. */
  datatype Txn = Txn(catalog: Catalog, ledger: Ledger, lines: seq<OrderLineItem>, subtotal: int)

  /** The product an item names, when its tag is one of the four. */
  function Target(item: LineItemRequest): Option<ProductKey> {
    match ParseCategory(item.categoryTag)
    case None => None
    case Some(c) => Some(ProductKey(c, item.id))
  }

  /** The item passes validation, its tag is known and its product exists in `cat`. */
  predicate Resolves(cat: Catalog, item: LineItemRequest) {
    && item.id != ""
    && item.categoryTag != ""
    && item.quantity > 0
    && Target(item).Some?
    && cat.Has(Target(item).value)
  }

  /** Whether some item names product `k`. */
  predicate Refers(items: seq<LineItemRequest>, k: ProductKey)
    decreases |items|
  {
    items != [] && (Target(items[0]) == Some(k) || Refers(items[1..], k))
  }

  /** The total quantity the items request of product `k`. */
  function Demand(items: seq<LineItemRequest>, k: ProductKey): int
    decreases |items|
  {
    if items == [] then 0
    else (if Target(items[0]) == Some(k) then items[0].quantity else 0) + Demand(items[1..], k)
  }

  /** Every item resolves, and no named product is asked for more in total than it has in stock. */
  ghost predicate Feasible(cat: Catalog, items: seq<LineItemRequest>) {
    && (forall j :: 0 <= j < |items| ==> Resolves(cat, items[j]))
    && (forall k :: cat.Has(k) && Refers(items, k) ==> Demand(items, k) <= cat.At(k).inStock)
  }

  /** The snapshot an item contributes to the order, taken from the product as it stands in `cat`. */
  function SnapshotOf(cat: Catalog, item: LineItemRequest): OrderLineItem
    requires Resolves(cat, item)
  {
    var k := Target(item).value;
    LineOf(cat.At(k), k.category, item.quantity)
  }

  /** The snapshots of a list of items, in order, all taken from the same catalog. */
  function Snapshots(cat: Catalog, items: seq<LineItemRequest>): (lines: seq<OrderLineItem>)
    requires forall j :: 0 <= j < |items| ==> Resolves(cat, items[j])
    ensures |lines| == |items|
    decreases |items|
  {
    if items == [] then [] else [SnapshotOf(cat, items[0])] + Snapshots(cat, items[1..])
  }

  /** Entry j of the snapshots is the snapshot of item j. */
  lemma {:induction false} SnapshotsAt(cat: Catalog, items: seq<LineItemRequest>, j: nat)
    requires forall j :: 0 <= j < |items| ==> Resolves(cat, items[j])
    requires j < |items|
    ensures Snapshots(cat, items)[j] == SnapshotOf(cat, items[j])
    decreases |items|
  {
    if j > 0 {
      SnapshotsAt(cat, items[1..], j - 1);
    }
  }

  /** One iteration of the route's loop over `selectedItems`. */
  function ReserveItem(t: Txn, item: LineItemRequest, now: nat): (r: Result<Txn, OrderError>)
    ensures r.Success? <==> Resolves(t.catalog, item) && t.catalog.At(Target(item).value).inStock >= item.quantity
    ensures (item.id == "" || item.categoryTag == "" || item.quantity <= 0) ==> r == Failure(InvalidItem(item))
    ensures (item.id != "" && item.categoryTag != "" && item.quantity > 0 && ParseCategory(item.categoryTag).None?)
      ==> r == Failure(InvalidCategory(item.categoryTag))
    ensures (item.id != "" && item.categoryTag != "" && item.quantity > 0 && ParseCategory(item.categoryTag).Some?
             && !t.catalog.Has(ProductKey(ParseCategory(item.categoryTag).value, item.id)))
      ==> r == Failure(ProductNotFound(item.id))
    ensures r.Failure? && Resolves(t.catalog, item) ==>
      var p := t.catalog.At(Target(item).value);
      r.error == InsufficientStock(p.name, p.inStock, item.quantity)
  {
    if item.id == "" || item.categoryTag == "" || item.quantity <= 0 then
      Failure(InvalidItem(item))
    else match ParseCategory(item.categoryTag)
      case None => Failure(InvalidCategory(item.categoryTag))
      case Some(c) =>
        var k := ProductKey(c, item.id);
        if !t.catalog.Has(k) then Failure(ProductNotFound(item.id))
        else
          var p := t.catalog.At(k);
          if p.inStock < item.quantity then Failure(InsufficientStock(p.name, p.inStock, item.quantity))
          else
            var saved := p.(inStock := p.inStock - item.quantity);
            Success(Txn(
              t.catalog.Put(k, saved),
              Upsert(t.ledger, k, saved, now),
              t.lines + [LineOf(saved, c, item.quantity)],
              t.subtotal + saved.sellingPrice * item.quantity))
  }

  /** The whole loop: the items in input order, stopping at the first error. */
  function ReserveFrom(t: Txn, items: seq<LineItemRequest>, now: nat): (r: Result<Txn, OrderError>)
    ensures r.Success? ==> |r.value.lines| == |t.lines| + |items|
    decreases |items|
  {
    if items == [] then Success(t)
    else match ReserveItem(t, items[0], now)
      case Failure(e) => Failure(e)
      case Success(next) => ReserveFrom(next, items[1..], now)
  }

  /** A product that no item names is asked for nothing. */
  lemma {:induction false} UnreferencedHasNoDemand(items: seq<LineItemRequest>, k: ProductKey)
    requires !Refers(items, k)
    ensures Demand(items, k) == 0
    decreases |items|
  {
    if items != [] {
      UnreferencedHasNoDemand(items[1..], k);
    }
  }

  /** Demand is never negative when every quantity is positive. */
  lemma {:induction false} DemandNonNegative(items: seq<LineItemRequest>, k: ProductKey)
    requires forall j :: 0 <= j < |items| ==> items[j].quantity > 0
    ensures Demand(items, k) >= 0
    ensures Refers(items, k) ==> Demand(items, k) > 0
    decreases |items|
  {
    if items != [] {
      DemandNonNegative(items[1..], k);
    }
  }

  /** The facts about one successful step that the lemmas below share. */
  lemma StepFacts(t: Txn, item: LineItemRequest, now: nat, k: ProductKey)
    requires ReserveItem(t, item, now).Success?
    ensures Resolves(t.catalog, item)
    ensures var kx := Target(item).value;
      var next := ReserveItem(t, item, now).value;
      && t.catalog.At(kx).inStock >= item.quantity
      && (next.catalog.Has(k) <==> t.catalog.Has(k))
      && (t.catalog.Has(k) ==>
            next.catalog.At(k) == (if k == kx then t.catalog.At(k).(inStock := t.catalog.At(k).inStock - item.quantity)
                                   else t.catalog.At(k)))
      && Demand([item], k) == (if k == kx then item.quantity else 0)
  {
    var c := ParseCategory(item.categoryTag).value;
    var kx := ProductKey(c, item.id);
    var p := t.catalog.At(kx);
    PutAt(t.catalog, kx, p.(inStock := p.inStock - item.quantity), k);
  }

  /**
   * After a successful loop every product keeps its place, and its stock has
   * dropped by exactly the total quantity the items asked of it, which never
   * exceeded what it had: a product named twice is checked against the
   * already reduced stock the second time.
   */
  lemma {:induction false} ReserveStockAt(t: Txn, items: seq<LineItemRequest>, now: nat, k: ProductKey)
    requires ReserveFrom(t, items, now).Success?
    ensures var done := ReserveFrom(t, items, now).value;
      && (done.catalog.Has(k) <==> t.catalog.Has(k))
      && (Refers(items, k) ==> t.catalog.Has(k) && 0 < Demand(items, k) <= t.catalog.At(k).inStock)
      && (t.catalog.Has(k) ==>
            done.catalog.At(k) == t.catalog.At(k).(inStock := t.catalog.At(k).inStock - Demand(items, k)))
    decreases |items|
  {
    if items == [] {
      assert ReserveFrom(t, items, now).value == t;
    } else {
      var item, rest := items[0], items[1..];
      var next := ReserveItem(t, item, now).value;
      StepFacts(t, item, now, k);
      ReserveStockAt(next, rest, now, k);
      assert Demand(items, k) == Demand([item], k) + Demand(rest, k);
      if !Refers(rest, k) {
        UnreferencedHasNoDemand(rest, k);
      }
    }
  }

  /**
   * The loop succeeds exactly when every item resolves and no product is asked
   * for more in total than its stock before the order; the running check on
   * already decremented stock adds up to this one check on the totals.
   */
  lemma {:induction false} ReserveSucceedsIff(t: Txn, items: seq<LineItemRequest>, now: nat)
    ensures ReserveFrom(t, items, now).Success? <==> Feasible(t.catalog, items)
    decreases |items|
  {
    if items != [] {
      if ReserveItem(t, items[0], now).Success? {
        var next := ReserveItem(t, items[0], now).value;
        ReserveSucceedsIff(next, items[1..], now);
        FeasibleAfterStep(t, items, now);
      } else {
        FailedStepInfeasible(t, items, now);
      }
    }
  }

  /** A first item that fails its step makes the whole list infeasible. */
  lemma FailedStepInfeasible(t: Txn, items: seq<LineItemRequest>, now: nat)
    requires items != []
    requires ReserveItem(t, items[0], now).Failure?
    ensures !Feasible(t.catalog, items)
  {
    var item, rest := items[0], items[1..];
    if Feasible(t.catalog, items) {
      assert Resolves(t.catalog, item);
      var kx := Target(item).value;
      assert forall j :: 0 <= j < |rest| ==> rest[j].quantity > 0 by {
        forall j | 0 <= j < |rest| ensures rest[j].quantity > 0 {
          assert Resolves(t.catalog, items[j + 1]);
        }
      }
      assert Demand(items, kx) == item.quantity + Demand(rest, kx);
      DemandNonNegative(rest, kx);
      assert false;
    }
  }

  /**
   * After a successful first step, the rest is feasible against the stepped
   * catalog exactly when the whole list is feasible against the one before it.
   */
  lemma FeasibleAfterStep(t: Txn, items: seq<LineItemRequest>, now: nat)
    requires items != []
    requires ReserveItem(t, items[0], now).Success?
    ensures Feasible(ReserveItem(t, items[0], now).value.catalog, items[1..]) <==> Feasible(t.catalog, items)
  {
    var item, rest := items[0], items[1..];
    var next := ReserveItem(t, item, now).value;
    var kx := Target(item).value;
    StepFacts(t, item, now, kx);
    forall k
      ensures next.catalog.Has(k) <==> t.catalog.Has(k)
      ensures t.catalog.Has(k) ==>
        (Demand(rest, k) <= next.catalog.At(k).inStock <==> Demand(items, k) <= t.catalog.At(k).inStock)
    {
      StepFacts(t, item, now, k);
      assert Demand(items, k) == Demand([item], k) + Demand(rest, k);
    }
    forall y ensures Resolves(next.catalog, y) <==> Resolves(t.catalog, y) {
      if Target(y).Some? {
        StepFacts(t, item, now, Target(y).value);
      }
    }
    if Feasible(t.catalog, items) {
      assert forall j :: 0 <= j < |rest| ==> Resolves(t.catalog, rest[j]) by {
        forall j | 0 <= j < |rest| ensures Resolves(t.catalog, rest[j]) {
          assert rest[j] == items[j + 1];
        }
      }
      forall k | next.catalog.Has(k) && Refers(rest, k) ensures Demand(rest, k) <= next.catalog.At(k).inStock {
        assert Refers(items, k);
      }
    }
    if Feasible(next.catalog, rest) {
      forall j | 0 <= j < |items| ensures Resolves(t.catalog, items[j]) {
        if j > 0 {
          assert items[j] == rest[j - 1];
        }
      }
      forall k | t.catalog.Has(k) && Refers(items, k) ensures Demand(items, k) <= t.catalog.At(k).inStock {
        StepFacts(t, item, now, k);
        if !Refers(rest, k) {
          UnreferencedHasNoDemand(rest, k);
        }
      }
    }
  }

  /** A step changes only a stock count, so every other item resolves and snapshots as before it. */
  lemma SnapshotAfterStep(t: Txn, item: LineItemRequest, now: nat, other: LineItemRequest)
    requires ReserveItem(t, item, now).Success?
    requires Resolves(ReserveItem(t, item, now).value.catalog, other)
    ensures Resolves(t.catalog, other)
    ensures SnapshotOf(ReserveItem(t, item, now).value.catalog, other) == SnapshotOf(t.catalog, other)
  {
    var next := ReserveItem(t, item, now).value;
    var k := Target(other).value;
    StepFacts(t, item, now, k);
    var p := t.catalog.At(k);
    if next.catalog.At(k) != p {
      assert next.catalog.At(k) == p.(inStock := p.inStock - item.quantity);
      assert LineOf(next.catalog.At(k), k.category, other.quantity) == LineOf(p, k.category, other.quantity);
    }
  }

  /** One step appends exactly the snapshot of its item's product, taken before the step. */
  lemma StepLine(t: Txn, item: LineItemRequest, now: nat)
    requires ReserveItem(t, item, now).Success?
    ensures Resolves(t.catalog, item)
    ensures ReserveItem(t, item, now).value.lines == t.lines + [SnapshotOf(t.catalog, item)]
  {
    StepFacts(t, item, now, Target(item).value);
  }

  /** A step leaves the snapshots of any later items as they were before it. */
  lemma {:induction false} SnapshotsAfterStep(t: Txn, item: LineItemRequest, now: nat, rest: seq<LineItemRequest>)
    requires ReserveItem(t, item, now).Success?
    requires forall j :: 0 <= j < |rest| ==> Resolves(ReserveItem(t, item, now).value.catalog, rest[j])
    ensures forall j :: 0 <= j < |rest| ==> Resolves(t.catalog, rest[j])
    ensures Snapshots(ReserveItem(t, item, now).value.catalog, rest) == Snapshots(t.catalog, rest)
    decreases |rest|
  {
    if rest != [] {
      SnapshotAfterStep(t, item, now, rest[0]);
      SnapshotsAfterStep(t, item, now, rest[1..]);
      forall j | 0 < j < |rest| ensures Resolves(t.catalog, rest[j]) {
        assert rest[j] == rest[1..][j - 1];
      }
    }
  }

  /** A successful loop over a non-empty list is its first step followed by the loop over the rest. */
  lemma ReserveUnfold(t: Txn, items: seq<LineItemRequest>, now: nat)
    requires ReserveFrom(t, items, now).Success?
    requires items != []
    ensures ReserveItem(t, items[0], now).Success?
    ensures ReserveFrom(t, items, now) == ReserveFrom(ReserveItem(t, items[0], now).value, items[1..], now)
  {
  }

  /** The snapshots of a list with a first item are that item's snapshot followed by the rest's. */
  lemma SnapshotsCons(cat: Catalog, items: seq<LineItemRequest>)
    requires items != []
    requires Resolves(cat, items[0])
    requires forall j :: 0 <= j < |items[1..]| ==> Resolves(cat, items[1..][j])
    ensures forall j :: 0 <= j < |items| ==> Resolves(cat, items[j])
    ensures Snapshots(cat, items) == [SnapshotOf(cat, items[0])] + Snapshots(cat, items[1..])
  {
    forall j | 0 < j < |items| ensures Resolves(cat, items[j]) {
      assert items[j] == items[1..][j - 1];
    }
  }

  /** Appending one element and then a list is appending the list that element starts. */
  lemma Regroup<T>(prefix: seq<T>, x: T, later: seq<T>)
    ensures (prefix + [x]) + later == prefix + ([x] + later)
  {
  }

  /**
   * After a successful loop every item resolved in the catalog it started
   * from, and the order's lines are the lines it started with followed by
   * the snapshot of each item's product, in input order.
   */
  lemma {:induction false} ReserveLines(t: Txn, items: seq<LineItemRequest>, now: nat)
    requires ReserveFrom(t, items, now).Success?
    ensures forall j :: 0 <= j < |items| ==> Resolves(t.catalog, items[j])
    ensures ReserveFrom(t, items, now).value.lines == t.lines + Snapshots(t.catalog, items)
    decreases |items|
  {
    if items != [] {
      var item, rest := items[0], items[1..];
      ReserveUnfold(t, items, now);
      ReserveLines(ReserveItem(t, item, now).value, rest, now);
      StepLine(t, item, now);
      SnapshotsAfterStep(t, item, now, rest);
      SnapshotsCons(t.catalog, items);
      Regroup(t.lines, SnapshotOf(t.catalog, item), Snapshots(t.catalog, rest));
    }
  }

  /** Line j of the order is the snapshot of item j's product: its code, name, price at order time and weight (100 g when unset). */
  lemma ReserveLineAt(t: Txn, items: seq<LineItemRequest>, now: nat, j: nat)
    requires ReserveFrom(t, items, now).Success?
    requires j < |items|
    ensures var done := ReserveFrom(t, items, now).value;
      && |done.lines| == |t.lines| + |items|
      && Resolves(t.catalog, items[j])
      && done.lines[|t.lines| + j] == SnapshotOf(t.catalog, items[j])
  {
    ReserveLines(t, items, now);
    SnapshotsAt(t.catalog, items, j);
  }

  /** The loop over the first i items starts with the first item's step and goes on over the next i - 1. */
  lemma PrefixStep(t: Txn, items: seq<LineItemRequest>, now: nat, i: nat)
    requires 0 < i <= |items|
    requires ReserveItem(t, items[0], now).Success?
    ensures ReserveFrom(t, items[..i], now) == ReserveFrom(ReserveItem(t, items[0], now).value, items[1..][..i - 1], now)
  {
    assert items[..i][0] == items[0];
    assert items[..i][1..] == items[1..][..i - 1];
  }

  /**
   * A failed loop reports the error of its first failing item: the items
   * before position i all went through, and item i, checked against the
   * stock they left, raised the error the loop returns.
   */
  lemma {:induction false} FirstFailure(t: Txn, items: seq<LineItemRequest>, now: nat) returns (i: nat)
    requires ReserveFrom(t, items, now).Failure?
    ensures i < |items|
    ensures ReserveFrom(t, items[..i], now).Success?
    ensures ReserveItem(ReserveFrom(t, items[..i], now).value, items[i], now) == Failure(ReserveFrom(t, items, now).error)
    decreases |items|
  {
    if ReserveItem(t, items[0], now).Failure? {
      i := 0;
      assert items[..0] == [];
    } else {
      var next := ReserveItem(t, items[0], now).value;
      assert ReserveFrom(t, items, now) == ReserveFrom(next, items[1..], now);
      var j := FirstFailure(next, items[1..], now);
      i := j + 1;
      PrefixStep(t, items, now, i);
      assert items[1..][j] == items[i];
    }
  }

  /** The running subtotal stays equal to Σ priceAtOrder × quantity over the lines. */
  lemma {:induction false} ReserveSubtotal(t: Txn, items: seq<LineItemRequest>, now: nat)
    requires ReserveFrom(t, items, now).Success?
    requires t.subtotal == LinesTotal(t.lines)
    ensures var done := ReserveFrom(t, items, now).value;
      done.subtotal == LinesTotal(done.lines)
    decreases |items|
  {
    if items != [] {
      var next := ReserveItem(t, items[0], now).value;
      LinesTotalAppend(t.lines, next.lines[|t.lines|]);
      assert next.lines == t.lines + [next.lines[|t.lines|]];
      ReserveSubtotal(next, items[1..], now);
    }
  }

  /**
   * The stock ledger after the loop: every named product's entry holds its
   * final stock and the time of the order; an entry that existed keeps its
   * code, name and source, a new one gets the product's code (or the derived
   * one), its name and source "online"; entries of other products are untouched.
   */
  lemma {:induction false} ReserveLedgerAt(t: Txn, items: seq<LineItemRequest>, now: nat, k: ProductKey)
    requires ReserveFrom(t, items, now).Success?
    ensures var done := ReserveFrom(t, items, now).value;
      if Refers(items, k) then
        && t.catalog.Has(k) && done.catalog.Has(k) && k in done.ledger
        && done.ledger[k].currentStock == done.catalog.At(k).inStock
        && done.ledger[k].lastUpdated == now
        && (k in t.ledger ==>
              && done.ledger[k].productCode == t.ledger[k].productCode
              && done.ledger[k].productName == t.ledger[k].productName
              && done.ledger[k].source == t.ledger[k].source)
        && (k !in t.ledger ==>
              && done.ledger[k].productCode == CodeOf(t.catalog.At(k), k.category)
              && done.ledger[k].productName == t.catalog.At(k).name
              && done.ledger[k].source == "online")
      else
        && (k in done.ledger <==> k in t.ledger)
        && (k in t.ledger ==> done.ledger[k] == t.ledger[k])
    decreases |items|
  {
    if items != [] {
      var item, rest := items[0], items[1..];
      var next := ReserveItem(t, item, now).value;
      var kx := Target(item).value;
      StepFacts(t, item, now, k);
      ReserveStockAt(t, items, now, k);
      ReserveStockAt(next, rest, now, k);
      ReserveLedgerAt(next, rest, now, k);
      if !Refers(rest, k) {
        UnreferencedHasNoDemand(rest, k);
      }
    }
  }
}
