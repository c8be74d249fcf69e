/** The order document: its schema (required fields, the status enum and its
    default, the creation-time defaults), the validation `create` performs,
    and the static `calcTotal` helper. */
module Orders {
  import opened Wrappers

  /** Identity of a menu item in the separate menu-items collection. */
  type MenuItemId = nat

  /** The four values the schema admits for `status`. */
  datatype Status = Pending | Confirmed | Delivered | Cancelled {
    /** The string stored in the document. */
    function Name(): string {
      match this
      case Pending => "pending"
      case Confirmed => "confirmed"
      case Delivered => "delivered"
      case Cancelled => "cancelled"
    }
  }

  /** The status a document gets when the creating body names none. */
  const DefaultStatus: Status := Pending

  /** The enum value a stored string names, if any. */
  function ParseStatus(s: string): (r: Option<Status>)
    ensures r.Some? ==> r.value.Name() == s
    ensures r.None? ==> forall st: Status :: st.Name() != s
  {
    if s == "pending" then Some(Pending)
    else if s == "confirmed" then Some(Confirmed)
    else if s == "delivered" then Some(Delivered)
    else if s == "cancelled" then Some(Cancelled)
    else None
  }

  /** Parsing inverts naming. */
  lemma ParseName(st: Status)
    ensures ParseStatus(st.Name()) == Some(st)
  {
  }

  /** One entry of an order's `items`: a non-owning reference to a menu item
      (the schema does not require it) and a quantity. */
  datatype LineItem = LineItem(item: Option<MenuItemId>, quantity: int)

  /** A stored order. `status` is kept as the string the store holds: the
      store accepts any string through an update (see `OrderStore.Update`). */
  datatype Order = Order(
    name: string,
    address: string,
    phone: string,
    items: seq<LineItem>,
    status: string,
    createdAt: int,
    updatedAt: int)

  /** A required string passes only when it is set and not empty. */
  predicate Present(s: Option<string>) {
    s.Some? && |s.value| > 0
  }

  /** The schema invariant every created order satisfies. */
  predicate ValidOrder(o: Order) {
    && |o.name| > 0
    && |o.address| > 0
    && |o.phone| > 0
    && ParseStatus(o.status).Some?
  }

  /** One entry of `items` as a caller submits it. */
  datatype ItemBody = ItemBody(item: Option<MenuItemId>, quantity: Option<int>)

  /** The body handed to `create`; `None` is an omitted field. */
  datatype Body = Body(
    name: Option<string>,
    address: Option<string>,
    phone: Option<string>,
    items: seq<ItemBody>,
    status: Option<string>,
    createdAt: Option<int>,
    updatedAt: Option<int>)

  /** The document paths a validation error can name. */
  datatype Path = NamePath | AddressPath | PhonePath | QuantityPath(index: nat) | StatusPath

  /** The schema rule at `p` is broken by `b`. */
  predicate Violated(b: Body, p: Path) {
    match p
    case NamePath => !Present(b.name)
    case AddressPath => !Present(b.address)
    case PhonePath => !Present(b.phone)
    case QuantityPath(i) => i < |b.items| && b.items[i].quantity.None?
    case StatusPath => b.status.Some? && ParseStatus(b.status.value).None?
  }

  /** A body the schema accepts: no rule is broken. */
  ghost predicate BodyValid(b: Body) {
    forall p: Path :: !Violated(b, p)
  }

  /** Every path whose rule the body breaks, as the store reports them. */
  function ValidationErrors(b: Body): (errs: set<Path>)
    ensures forall p: Path :: p in errs <==> Violated(b, p)
  {
    (if Present(b.name) then {} else {NamePath})
    + (if Present(b.address) then {} else {AddressPath})
    + (if Present(b.phone) then {} else {PhonePath})
    + (set i | 0 <= i < |b.items| && b.items[i].quantity.None? :: QuantityPath(i))
    + (if b.status.Some? && ParseStatus(b.status.value).None? then {StatusPath} else {})
  }

  /** Apply the schema's defaults and validators to a body at time `now`:
      the document, or every broken path. */
  function Validate(b: Body, now: int): (r: Result<Order, set<Path>>)
    ensures r.Success? <==> BodyValid(b)
    ensures r.Failure? ==> r.error != {} && forall p: Path :: p in r.error <==> Violated(b, p)
    ensures r.Success? ==> ValidOrder(r.value)
    ensures r.Success? ==> b.name == Some(r.value.name) && b.address == Some(r.value.address)
                           && b.phone == Some(r.value.phone)
    ensures r.Success? ==> |r.value.items| == |b.items|
                           && forall i :: 0 <= i < |b.items| ==>
                                && r.value.items[i].item == b.items[i].item
                                && b.items[i].quantity == Some(r.value.items[i].quantity)
    ensures r.Success? && b.status.None? ==> r.value.status == DefaultStatus.Name()
    ensures r.Success? && b.status.Some? ==> r.value.status == b.status.value
    ensures r.Success? ==> r.value.createdAt == b.createdAt.GetOr(now)
                           && r.value.updatedAt == b.updatedAt.GetOr(now)
  {
    var errs := ValidationErrors(b);
    if errs != {} then
      Failure(errs)
    else
      assert forall i :: 0 <= i < |b.items| ==> b.items[i].quantity.Some? by {
        forall i | 0 <= i < |b.items| ensures b.items[i].quantity.Some? {
          assert QuantityPath(i) !in errs;
        }
      }
      var items := seq(|b.items|, i requires 0 <= i < |b.items| && b.items[i].quantity.Some? =>
                         LineItem(b.items[i].item, b.items[i].quantity.value));
      var status := if b.status.Some? then b.status.value else DefaultStatus.Name();
      Success(Order(b.name.value, b.address.value, b.phone.value, items, status,
                    b.createdAt.GetOr(now), b.updatedAt.GetOr(now)))
  }

  /** A price and a quantity, the shape `calcTotal` reads. */
  datatype Priced = Priced(price: int, quantity: int)

  /** `calcTotal`: a left-to-right fold adding price times quantity. The
      same total results from taking the entries front to back. */
  function CalcTotal(items: seq<Priced>): (r: int)
    ensures |items| > 0 ==> r == items[0].price * items[0].quantity + CalcTotal(items[1..])
  {
    if |items| == 0 then 0
    else
      var n := |items| - 1;
      assert n > 0 ==> items[1..][..n - 1] == items[1..n];
      assert n > 0 ==> items[..n][1..] == items[1..n];
      CalcTotal(items[..n]) + items[n].price * items[n].quantity
  }

  /** The total of a concatenation is the sum of the totals. */
  lemma {:induction false} CalcTotalAppend(xs: seq<Priced>, ys: seq<Priced>)
    ensures CalcTotal([]) == 0
    ensures CalcTotal(xs + ys) == CalcTotal(xs) + CalcTotal(ys)
    decreases |ys|
  {
    if |ys| == 0 {
      assert xs + ys == xs;
    } else {
      var n := |ys| - 1;
      assert (xs + ys)[..|xs + ys| - 1] == xs + ys[..n];
      CalcTotalAppend(xs, ys[..n]);
    }
  }

  /** The total of one entry is its price times its quantity. */
  lemma CalcTotalSingle(x: Priced)
    ensures CalcTotal([x]) == x.price * x.quantity
  {
    assert [x][..0] == [];
  }

  /** Two entries at 10 x 2 and 5 x 3 total 35. */
  lemma CalcTotalExample()
    ensures CalcTotal([Priced(10, 2), Priced(5, 3)]) == 35
  {
    assert [Priced(10, 2), Priced(5, 3)][..1] == [Priced(10, 2)];
    CalcTotalSingle(Priced(10, 2));
  }
}
