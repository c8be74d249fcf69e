/** `getTotalSales`: the aggregation that matches orders by creation date,
    unwinds their line items, looks up each item's price, multiplies by the
    quantity and sums. The menu-items collection is a price table. */
module OrderSales {
  import opened Wrappers
  import opened DateRange
  import opened Orders
  import opened OrderStore

  /** Menu item id to price. */
  type PriceTable = map<MenuItemId, int>

  /** The lookup and multiply stages for one unwound line: price times
      quantity, or null when the line names no menu item with a price. */
  function ItemTotal(prices: PriceTable, line: LineItem): Option<int> {
    if line.item.Some? && line.item.value in prices then Some(prices[line.item.value] * line.quantity)
    else None
  }

  function ItemTotals(prices: PriceTable, lines: seq<LineItem>): (r: seq<Option<int>>)
    ensures |r| == |lines|
    ensures forall i :: 0 <= i < |lines| ==> r[i] == ItemTotal(prices, lines[i])
  {
    seq(|lines|, i requires 0 <= i < |lines| => ItemTotal(prices, lines[i]))
  }

  /** The `$sum` accumulator: adds the numbers and skips nulls. */
  function SumPresent(vals: seq<Option<int>>): int {
    if |vals| == 0 then 0
    else (if vals[0].Some? then vals[0].value else 0) + SumPresent(vals[1..])
  }

  /** The `$group` stage: no output document when no line reached it. */
  function GroupTotal(vals: seq<Option<int>>): (r: Option<int>)
    ensures r.None? <==> |vals| == 0
  {
    if |vals| == 0 then None else Some(SumPresent(vals))
  }

  /** The `$unwind` stage: every line item of every order, in order. */
  function Unwind(os: seq<Order>): seq<LineItem> {
    if |os| == 0 then [] else Unwind(os[..|os| - 1]) + os[|os| - 1].items
  }

  /** The `$match` stage over the orders with ids below `n`, in id order. */
  function MatchedUpTo(orders: map<OrderId, Order>, q: Query, n: nat): seq<Order> {
    if n == 0 then []
    else MatchedUpTo(orders, q, n - 1)
         + (if n - 1 in orders && Satisfies(orders[n - 1], q) then [orders[n - 1]] else [])
  }

  /** The stored orders passing `q`, in the order they were created. */
  function Matched(st: Store, q: Query): seq<Order> {
    MatchedUpTo(st.orders, q, st.nextId)
  }


  /** `getTotalSales`: the pipeline's single group total, or 0 when the
      pipeline produced no group. The total is the sum, over the
      date-matched orders, of each order's sales; it is 0 when no stored
      order was created inside the range. */
  function GetTotalSales(st: Store, prices: PriceTable, startDate: DateArg, endDate: DateArg): (r: int)
    ensures r == SalesOf(prices, Matched(st, QueryDateRange(startDate, endDate)))
    ensures (forall id :: id in st.orders ==>
               !Matches(QueryDateRange(startDate, endDate), st.orders[id].createdAt)) ==> r == 0
  {
    var q := QueryDateRange(startDate, endDate);
    var vals := ItemTotals(prices, Unwind(Matched(st, q)));
    UnwindSales(prices, Matched(st, q));
    NoneMatchedIsEmpty(st, startDate, endDate);
    match GroupTotal(vals)
    case Some(total) => total
    case None => 0
  }

  /** The sales one order contributes. */
  function OrderSales(prices: PriceTable, o: Order): int {
    SumPresent(ItemTotals(prices, o.items))
  }

  /** The sales a sequence of orders contributes, order by order. */
  function SalesOf(prices: PriceTable, os: seq<Order>): int {
    if |os| == 0 then 0 else SalesOf(prices, os[..|os| - 1]) + OrderSales(prices, os[|os| - 1])
  }

  /** The lines of `lines` that have a price, in the shape `calcTotal` reads. */
  function PricedLines(prices: PriceTable, lines: seq<LineItem>): seq<Priced> {
    if |lines| == 0 then []
    else if lines[0].item.Some? && lines[0].item.value in prices then
      [Priced(prices[lines[0].item.value], lines[0].quantity)] + PricedLines(prices, lines[1..])
    else PricedLines(prices, lines[1..])
  }

  lemma {:induction false} SumPresentAppend(a: seq<Option<int>>, b: seq<Option<int>>)
    ensures SumPresent(a + b) == SumPresent(a) + SumPresent(b)
    decreases |a|
  {
    if |a| == 0 {
      assert a + b == b;
    } else {
      assert (a + b)[1..] == a[1..] + b;
      SumPresentAppend(a[1..], b);
    }
  }

  /** Summing the unwound lines is summing order by order. */
  lemma {:induction false} UnwindSales(prices: PriceTable, os: seq<Order>)
    ensures SumPresent(ItemTotals(prices, Unwind(os))) == SalesOf(prices, os)
    decreases |os|
  {
    if |os| > 0 {
      var init := os[..|os| - 1];
      var last := os[|os| - 1];
      assert ItemTotals(prices, Unwind(os)) == ItemTotals(prices, Unwind(init)) + ItemTotals(prices, last.items);
      SumPresentAppend(ItemTotals(prices, Unwind(init)), ItemTotals(prices, last.items));
      UnwindSales(prices, init);
    }
  }

  /** One order's sales are `calcTotal` of its priced lines: the
      aggregation and the static helper agree. */
  lemma {:induction false} OrderSalesIsCalcTotal(prices: PriceTable, lines: seq<LineItem>)
    ensures SumPresent(ItemTotals(prices, lines)) == CalcTotal(PricedLines(prices, lines))
    decreases |lines|
  {
    if |lines| > 0 {
      assert ItemTotals(prices, lines)[1..] == ItemTotals(prices, lines[1..]);
      OrderSalesIsCalcTotal(prices, lines[1..]);
      if lines[0].item.Some? && lines[0].item.value in prices {
        var x := Priced(prices[lines[0].item.value], lines[0].quantity);
        CalcTotalAppend([x], PricedLines(prices, lines[1..]));
        CalcTotalSingle(x);
      }
    }
  }

  /** When no stored order passes the filter, the match is empty. */
  lemma {:induction false} NothingMatchedIsEmpty(orders: map<OrderId, Order>, q: Query, n: nat)
    requires forall id :: id in orders ==> !Satisfies(orders[id], q)
    ensures MatchedUpTo(orders, q, n) == []
  {
    if n > 0 {
      NothingMatchedIsEmpty(orders, q, n - 1);
    }
  }

  /** When no stored order was created inside the range, nothing is matched. */
  lemma NoneMatchedIsEmpty(st: Store, startDate: DateArg, endDate: DateArg)
    ensures (forall id :: id in st.orders ==>
               !Matches(QueryDateRange(startDate, endDate), st.orders[id].createdAt))
            ==> Matched(st, QueryDateRange(startDate, endDate)) == []
  {
    var q := QueryDateRange(startDate, endDate);
    if forall id :: id in st.orders ==> !Matches(q, st.orders[id].createdAt) {
      forall id | id in st.orders ensures !Satisfies(st.orders[id], q) {
        SatisfiesDateRange(st.orders[id], startDate, endDate);
      }
      NothingMatchedIsEmpty(st.orders, q, st.nextId);
    }
  }

  /** The match over ids below `n` holds exactly the orders under those ids
      that pass the filter. */
  lemma {:induction false} MatchedUpToMembers(orders: map<OrderId, Order>, q: Query, n: nat)
    ensures forall o :: o in MatchedUpTo(orders, q, n) <==>
              exists id :: 0 <= id < n && id in orders && orders[id] == o && Satisfies(o, q)
  {
    if n > 0 {
      MatchedUpToMembers(orders, q, n - 1);
      forall o | o in MatchedUpTo(orders, q, n)
        ensures exists id :: 0 <= id < n && id in orders && orders[id] == o && Satisfies(o, q)
      {
        if o !in MatchedUpTo(orders, q, n - 1) {
          assert 0 <= n - 1 < n && n - 1 in orders && orders[n - 1] == o && Satisfies(o, q);
        }
      }
      forall o | exists id :: 0 <= id < n && id in orders && orders[id] == o && Satisfies(o, q)
        ensures o in MatchedUpTo(orders, q, n)
      {
        var id :| 0 <= id < n && id in orders && orders[id] == o && Satisfies(o, q);
        if id < n - 1 {
          assert o in MatchedUpTo(orders, q, n - 1);
        }
      }
    }
  }

  /** In a well-formed store the match covers the whole collection: it
      holds exactly the orders `find` selects. */
  lemma MatchedCoversFind(st: Store, q: Query)
    requires Valid(st)
    ensures forall id :: id in Find(st, q) ==> Find(st, q)[id] in Matched(st, q)
    ensures forall o :: o in Matched(st, q) ==> exists id :: id in Find(st, q) && Find(st, q)[id] == o
  {
    MatchedUpToMembers(st.orders, q, st.nextId);
    forall o | o in Matched(st, q) ensures exists id :: id in Find(st, q) && Find(st, q)[id] == o {
      var id :| 0 <= id < st.nextId && id in st.orders && st.orders[id] == o && Satisfies(o, q);
      assert id in Find(st, q) && Find(st, q)[id] == o;
    }
  }

  /** Appending at most one order adds at most that order's sales. */
  lemma SalesOfStep(prices: PriceTable, os: seq<Order>, x: seq<Order>)
    requires |x| <= 1
    ensures SalesOf(prices, os + x) == SalesOf(prices, os) + (if |x| == 1 then OrderSales(prices, x[0]) else 0)
  {
    if |x| == 0 {
      assert os + x == os;
    } else {
      assert (os + x)[..|os|] == os;
    }
  }

  /** Taking one order out of the collection takes exactly its sales out
      of the total over any id prefix. */
  lemma {:induction false} SalesWithoutUpTo(prices: PriceTable, orders: map<OrderId, Order>, q: Query, id: OrderId, n: nat)
    requires id in orders
    ensures SalesOf(prices, MatchedUpTo(orders, q, n))
         == SalesOf(prices, MatchedUpTo(orders - {id}, q, n))
            + (if id < n && Satisfies(orders[id], q) then OrderSales(prices, orders[id]) else 0)
  {
    if n > 0 {
      var k := n - 1;
      var rest := orders - {id};
      SalesWithoutUpTo(prices, orders, q, id, k);
      var a := MatchedUpTo(orders, q, k);
      var b := MatchedUpTo(rest, q, k);
      var xa := if k in orders && Satisfies(orders[k], q) then [orders[k]] else [];
      var xb := if k in rest && Satisfies(rest[k], q) then [rest[k]] else [];
      assert MatchedUpTo(orders, q, n) == a + xa;
      assert MatchedUpTo(rest, q, n) == b + xb;
      SalesOfStep(prices, a, xa);
      SalesOfStep(prices, b, xb);
      if k == id {
        assert xb == [];
      } else {
        assert k in rest <==> k in orders;
        assert k in rest ==> rest[k] == orders[k];
        assert xa == xb;
      }
    }
  }

  /** The total over a collection is the total without one order plus that
      order's sales when it lies in the range; its status plays no part. */
  lemma TotalSalesWithout(st: Store, prices: PriceTable, startDate: DateArg, endDate: DateArg, id: OrderId)
    requires Valid(st) && id in st.orders
    ensures GetTotalSales(st, prices, startDate, endDate)
         == GetTotalSales(Remove(st, id).store, prices, startDate, endDate)
            + (if Matches(QueryDateRange(startDate, endDate), st.orders[id].createdAt)
               then OrderSales(prices, st.orders[id]) else 0)
  {
    var q := QueryDateRange(startDate, endDate);
    SalesWithoutUpTo(prices, st.orders, q, id, st.nextId);
    SatisfiesDateRange(st.orders[id], startDate, endDate);
    assert Remove(st, id).store == Store(st.orders - {id}, st.nextId);
  }

  /** A successful `create` adds the new order's sales to every range that
      contains its creation time, and nothing to any other range. */
  lemma CreateAddsSales(st: Store, body: Body, now: int, prices: PriceTable, startDate: DateArg, endDate: DateArg)
    requires Valid(st) && BodyValid(body)
    ensures Create(st, body, now).Success?
    ensures var c := Create(st, body, now).value;
            GetTotalSales(c.store, prices, startDate, endDate)
            == GetTotalSales(st, prices, startDate, endDate)
               + (if Matches(QueryDateRange(startDate, endDate), c.order.createdAt)
                  then OrderSales(prices, c.order) else 0)
  {
    var c := Create(st, body, now).value;
    var q := QueryDateRange(startDate, endDate);
    TotalSalesWithout(c.store, prices, startDate, endDate, c.id);
    var back := Remove(c.store, c.id).store;
    assert back.orders == st.orders by {
      assert c.id !in st.orders;
      assert c.store.orders - {c.id} == st.orders;
    }
    assert Matched(back, q) == Matched(st, q) by {
      assert back.nextId == st.nextId + 1;
      assert st.nextId !in st.orders;
    }
  }

  /** Changing only an order's status leaves every range's total as it was. */
  lemma TotalSalesIgnoresStatus(st: Store, id: OrderId, status: string, prices: PriceTable, startDate: DateArg, endDate: DateArg)
    requires Valid(st) && id in st.orders
    ensures var p := Patch(None, None, None, None, Some(status), None, None);
            GetTotalSales(Update(st, id, p).store, prices, startDate, endDate)
            == GetTotalSales(st, prices, startDate, endDate)
  {
    var p := Patch(None, None, None, None, Some(status), None, None);
    var st' := Update(st, id, p).store;
    TotalSalesWithout(st, prices, startDate, endDate, id);
    TotalSalesWithout(st', prices, startDate, endDate, id);
    assert Remove(st', id).store == Remove(st, id).store;
  }

  /** One order of two units of a 10-priced item sells 20 over an open range. */
  lemma TotalSalesExample()
    ensures var o := Order("Ann", "1 Main St", "555", [LineItem(Some(7), 2)], "pending", 0, 0);
            GetTotalSales(Store(map[0 := o], 1), map[7 := 10], Missing, Missing) == 20
  {
    var o := Order("Ann", "1 Main St", "555", [LineItem(Some(7), 2)], "pending", 0, 0);
    var st := Store(map[0 := o], 1);
    assert QueryDateRange(Missing, Missing) == map[];
    assert Satisfies(o, map[]);
    assert MatchedUpTo(st.orders, map[], 0) == [];
    assert Matched(st, map[]) == [o];
    assert Unwind([o]) == [LineItem(Some(7), 2)];
    assert ItemTotals(map[7 := 10], [LineItem(Some(7), 2)]) == [Some(20)];
  }
}
