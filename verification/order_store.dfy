/** The order collection as an in-memory map from store-assigned ids to
    documents, with the by-id operations and the status queries. Ids come
    from a counter, so a fresh id is always the counter's current value. */
module OrderStore {
  import opened Wrappers
  import opened DateRange
  import opened Orders

  type OrderId = nat

  datatype Store = Store(orders: map<OrderId, Order>, nextId: OrderId)

  /** Every stored id was handed out by the counter. */
  predicate Valid(st: Store) {
    forall id :: id in st.orders ==> id < st.nextId
  }

  const EmptyStore: Store := Store(map[], 0)

  /** A fresh collection is well formed and holds no orders. */
  lemma EmptyStoreValid()
    ensures Valid(EmptyStore) && EmptyStore.orders == map[]
  {
  }

  const StatusField: string := "status"

  /** Whether one condition of a filter holds of an order. Only the two
      fields the queries filter on are modelled; a condition on any other
      field, or of the wrong kind for its field, matches nothing. */
  predicate FieldHolds(o: Order, field: string, c: Cond) {
    if field == StatusField then c.Equals? && o.status == c.value
    else if field == CreatedAt then InRange(c, o.createdAt)
    else false
  }

  /** An order passes a filter when every condition in it holds. */
  predicate Satisfies(o: Order, q: Query) {
    forall f :: f in q ==> FieldHolds(o, f, q[f])
  }

  /** `find(q)`: the stored orders that pass `q`, under their ids. */
  function Find(st: Store, q: Query): (r: map<OrderId, Order>)
    ensures forall id :: id in r <==> id in st.orders && Satisfies(st.orders[id], q)
    ensures forall id :: id in r ==> r[id] == st.orders[id]
  {
    map id | id in st.orders && Satisfies(st.orders[id], q) :: st.orders[id]
  }

  /** Spreading two filters on different fields into one selects the
      orders both select. */
  lemma FindJoin(st: Store, q1: Query, q2: Query)
    requires q1.Keys !! q2.Keys
    ensures Find(st, q1 + q2).Keys == Find(st, q1).Keys * Find(st, q2).Keys
  {
  }

  /** The date filter alone constrains nothing but `createdAt`. */
  lemma SatisfiesDateRange(o: Order, startDate: DateArg, endDate: DateArg)
    ensures Satisfies(o, QueryDateRange(startDate, endDate))
        <==> Matches(QueryDateRange(startDate, endDate), o.createdAt)
  {
    var q := QueryDateRange(startDate, endDate);
    if CreatedAt in q {
      assert q.Keys == {CreatedAt};
      assert Satisfies(o, q) ==> FieldHolds(o, CreatedAt, q[CreatedAt]);
    }
  }

  /** `getAll`: every stored order. */
  function GetAll(st: Store): (r: map<OrderId, Order>)
    ensures r == st.orders
  {
    var r := Find(st, map[]);
    assert r.Keys == st.orders.Keys;
    r
  }

  /** The filter `getStatus` sends: the status, spread with the date range. */
  function StatusQuery(status: string, startDate: DateArg, endDate: DateArg): Query {
    map[StatusField := Equals(status)] + QueryDateRange(startDate, endDate)
  }

  /** What passing the `getStatus` filter means for one order. */
  lemma SatisfiesStatusQuery(o: Order, status: string, startDate: DateArg, endDate: DateArg)
    ensures Satisfies(o, StatusQuery(status, startDate, endDate))
        <==> o.status == status && Matches(QueryDateRange(startDate, endDate), o.createdAt)
  {
    var d := QueryDateRange(startDate, endDate);
    var q := StatusQuery(status, startDate, endDate);
    assert StatusField != CreatedAt;
    assert StatusField in q && q[StatusField] == Equals(status);
    if Satisfies(o, q) {
      assert FieldHolds(o, StatusField, q[StatusField]);
      if CreatedAt in d {
        assert FieldHolds(o, CreatedAt, q[CreatedAt]);
      }
    }
    if o.status == status && Matches(d, o.createdAt) {
      forall f | f in q ensures FieldHolds(o, f, q[f]) {
        if f != StatusField {
          assert f in d.Keys && f == CreatedAt;
        }
      }
    }
  }

  /** `getStatus`: the stored orders with exactly this status whose creation
      time lies in the (inclusive, possibly open) date range. */
  function GetStatus(st: Store, status: string, startDate: DateArg, endDate: DateArg): (r: map<OrderId, Order>)
    ensures forall id :: id in r <==>
              && id in st.orders
              && st.orders[id].status == status
              && Matches(QueryDateRange(startDate, endDate), st.orders[id].createdAt)
    ensures forall id :: id in r ==> r[id] == st.orders[id]
  {
    var r := Find(st, StatusQuery(status, startDate, endDate));
    forall id | id in st.orders
      ensures Satisfies(st.orders[id], StatusQuery(status, startDate, endDate))
          <==> st.orders[id].status == status
               && Matches(QueryDateRange(startDate, endDate), st.orders[id].createdAt)
    {
      SatisfiesStatusQuery(st.orders[id], status, startDate, endDate);
    }
    r
  }

  /** `getByStatus`: the stored orders with exactly this status. */
  function GetByStatus(st: Store, status: string): (r: map<OrderId, Order>)
    ensures forall id :: id in r <==> id in st.orders && st.orders[id].status == status
    ensures forall id :: id in r ==> r[id] == st.orders[id]
  {
    var q := map[StatusField := Equals(status)];
    var r := Find(st, q);
    forall id | id in st.orders
      ensures Satisfies(st.orders[id], q) <==> st.orders[id].status == status
    {
      assert FieldHolds(st.orders[id], StatusField, q[StatusField]) ==> Satisfies(st.orders[id], q);
    }
    r
  }

  /** `getByStatus` is `getStatus` without date bounds. */
  lemma GetByStatusIsUndated(st: Store, status: string)
    ensures GetByStatus(st, status) == GetStatus(st, status, Missing, Missing)
  {
  }

  /** `getStatus` returns only orders carrying the requested status, so
      it never returns more than `getByStatus` does. */
  lemma GetStatusOnlyThatStatus(st: Store, status: string, startDate: DateArg, endDate: DateArg)
    ensures forall id :: id in GetStatus(st, status, startDate, endDate) ==>
              GetStatus(st, status, startDate, endDate)[id].status == status
    ensures GetStatus(st, status, startDate, endDate).Keys <= GetByStatus(st, status).Keys
  {
  }

  /** `getOne`: the order under `id`, or nothing. */
  function GetOne(st: Store, id: OrderId): (r: Option<Order>)
    ensures r.Some? <==> id in st.orders
    ensures r.Some? ==> r.value == st.orders[id]
  {
    if id in st.orders then Some(st.orders[id]) else None
  }

  /** The outcome of a successful `create`. */
  datatype Created = Created(store: Store, id: OrderId, order: Order)

  /** `create`: validate the body against the schema at time `now`; on
      success store the document under a fresh id. A rejected body leaves
      the store as it was and reports every broken path. */
  function Create(st: Store, body: Body, now: int): (r: Result<Created, set<Path>>)
    ensures r.Failure? <==> !BodyValid(body)
    ensures r.Failure? ==> forall p: Path :: p in r.error <==> Violated(body, p)
    ensures r.Success? ==> ValidOrder(r.value.order)
    ensures r.Success? ==> Validate(body, now) == Success(r.value.order)
    ensures r.Success? ==> r.value.id == st.nextId && r.value.store.nextId == st.nextId + 1
    ensures r.Success? ==> r.value.store.orders == st.orders[r.value.id := r.value.order]
    ensures r.Success? && Valid(st) ==> r.value.id !in st.orders && Valid(r.value.store)
    ensures r.Success? ==> GetOne(r.value.store, r.value.id) == Some(r.value.order)
  {
    match Validate(body, now)
    case Failure(errs) => Failure(errs)
    case Success(o) =>
      Success(Created(Store(st.orders[st.nextId := o], st.nextId + 1), st.nextId, o))
  }

  /** Creating then reading back yields the body's own fields and items,
      the status default when none was given, and the clock for omitted
      timestamps;
      every earlier order is still there, unchanged. */
  lemma CreateThenGetOne(st: Store, body: Body, now: int)
    requires Valid(st) && BodyValid(body)
    ensures Create(st, body, now).Success?
    ensures var c := Create(st, body, now).value;
            && GetOne(c.store, c.id).Some?
            && Some(GetOne(c.store, c.id).value.name) == body.name
            && Some(GetOne(c.store, c.id).value.address) == body.address
            && Some(GetOne(c.store, c.id).value.phone) == body.phone
            && GetOne(c.store, c.id).value.status == (if body.status.Some? then body.status.value else Pending.Name())
            && |GetOne(c.store, c.id).value.items| == |body.items|
            && (forall i :: 0 <= i < |body.items| ==>
                  && GetOne(c.store, c.id).value.items[i].item == body.items[i].item
                  && body.items[i].quantity == Some(GetOne(c.store, c.id).value.items[i].quantity))
            && GetOne(c.store, c.id).value.createdAt == body.createdAt.GetOr(now)
            && GetOne(c.store, c.id).value.updatedAt == body.updatedAt.GetOr(now)
    ensures var c := Create(st, body, now).value;
            forall id :: id in st.orders ==> GetOne(c.store, id) == GetOne(st, id)
  {
  }

  /** A field-by-field replacement; `None` leaves the field as stored. */
  datatype Patch = Patch(
    name: Option<string>,
    address: Option<string>,
    phone: Option<string>,
    items: Option<seq<LineItem>>,
    status: Option<string>,
    createdAt: Option<int>,
    updatedAt: Option<int>)

  function ApplyPatch(o: Order, p: Patch): Order {
    Order(p.name.GetOr(o.name), p.address.GetOr(o.address), p.phone.GetOr(o.phone),
          p.items.GetOr(o.items), p.status.GetOr(o.status),
          p.createdAt.GetOr(o.createdAt), p.updatedAt.GetOr(o.updatedAt))
  }

  /** The outcome of `update`: the new store and the post-update order. */
  datatype Updated = Updated(store: Store, order: Option<Order>)

  /** `update`: replace the given fields of the order under `id` and return
      the order as it is afterwards. Validators do not run, and `updatedAt`
      changes only when the patch itself sets it. */
  function Update(st: Store, id: OrderId, p: Patch): (r: Updated)
    ensures id !in st.orders ==> r.order.None? && r.store == st
    ensures r.store.orders.Keys == st.orders.Keys && r.store.nextId == st.nextId
    ensures id in st.orders ==> r.order == Some(r.store.orders[id])
    ensures forall other :: other in st.orders && other != id ==> r.store.orders[other] == st.orders[other]
    ensures id in st.orders && p.updatedAt.None? ==> r.store.orders[id].updatedAt == st.orders[id].updatedAt
    ensures Valid(st) ==> Valid(r.store)
  {
    match GetOne(st, id)
    case None => Updated(st, None)
    case Some(o) =>
      var o' := ApplyPatch(o, p);
      Updated(Store(st.orders[id := o'], st.nextId), Some(o'))
  }

  /** Each field the patch gives is stored; each one it omits is kept. */
  lemma UpdateSetsGivenFields(st: Store, id: OrderId, p: Patch)
    requires id in st.orders
    ensures var o := st.orders[id];
            var o' := Update(st, id, p).order.value;
            && (if p.name.Some? then o'.name == p.name.value else o'.name == o.name)
            && (if p.address.Some? then o'.address == p.address.value else o'.address == o.address)
            && (if p.phone.Some? then o'.phone == p.phone.value else o'.phone == o.phone)
            && (if p.items.Some? then o'.items == p.items.value else o'.items == o.items)
            && (if p.status.Some? then o'.status == p.status.value else o'.status == o.status)
            && (if p.createdAt.Some? then o'.createdAt == p.createdAt.value else o'.createdAt == o.createdAt)
            && (if p.updatedAt.Some? then o'.updatedAt == p.updatedAt.value else o'.updatedAt == o.updatedAt)
  {
  }

  /** A patch whose given fields would each pass the schema. */
  predicate PatchValid(p: Patch) {
    && (p.name.Some? ==> |p.name.value| > 0)
    && (p.address.Some? ==> |p.address.value| > 0)
    && (p.phone.Some? ==> |p.phone.value| > 0)
    && (p.status.Some? ==> ParseStatus(p.status.value).Some?)
  }

  /** A schema-conforming patch keeps a valid order valid. */
  lemma UpdateKeepsValidity(st: Store, id: OrderId, p: Patch)
    requires id in st.orders && ValidOrder(st.orders[id]) && PatchValid(p)
    ensures ValidOrder(Update(st, id, p).store.orders[id])
  {
  }

  /** Since validators do not run on update, a status outside the enum is
      stored as given. */
  lemma UpdateSkipsValidation()
    ensures var o := Order("Ann", "1 Main St", "555", [], "pending", 0, 0);
            var st := Store(map[0 := o], 1);
            && ValidOrder(st.orders[0])
            && Update(st, 0, Patch(None, None, None, None, Some("shipped"), None, None)).order
               == Some(o.(status := "shipped"))
            && !ValidOrder(Update(st, 0, Patch(None, None, None, None, Some("shipped"), None, None)).store.orders[0])
  {
  }

  /** The failure `remove` raises when the id is absent: reading `id` of the
      null the delete returned. */
  datatype Fault = ReadIdOfNull

  /** The outcome of `remove`. */
  datatype Removed = Removed(store: Store, result: Result<OrderId, Fault>)

  /** `remove`: delete the order under `id` and return its id. With no such
      order nothing is deleted and the call fails. */
  function Remove(st: Store, id: OrderId): (r: Removed)
    ensures id in st.orders ==> r.result == Success(id)
    ensures id !in st.orders ==> r.result == Failure(ReadIdOfNull) && r.store == st
    ensures GetOne(r.store, id).None?
    ensures r.store.orders.Keys == st.orders.Keys - {id} && r.store.nextId == st.nextId
    ensures forall other :: other in st.orders && other != id ==> GetOne(r.store, other) == GetOne(st, other)
    ensures Valid(st) ==> Valid(r.store)
  {
    var deleted := GetOne(st, id);
    var st' := Store(st.orders - {id}, st.nextId);
    match deleted
    case None =>
      assert st'.orders == st.orders;
      Removed(st', Failure(ReadIdOfNull))
    case Some(_) => Removed(st', Success(id))
  }

  /** Removing an order just created restores the collection as it was. */
  lemma RemoveUndoesCreate(st: Store, body: Body, now: int)
    requires Valid(st) && BodyValid(body)
    ensures Create(st, body, now).Success?
    ensures var c := Create(st, body, now).value;
            Remove(c.store, c.id).store.orders == st.orders
            && Remove(c.store, c.id).result == Success(c.id)
  {
    var c := Create(st, body, now).value;
    assert c.id !in st.orders;
    assert Remove(c.store, c.id).store.orders == st.orders[c.id := c.order] - {c.id};
  }
}
