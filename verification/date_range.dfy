/** The date-range helper: it turns two optional bounds into a filter
    fragment on the `createdAt` field of an order, and the membership test
    that fragment stands for. Dates are integer timestamps. */
module DateRange {
  import opened Wrappers

  /** A date argument as a caller may pass it. `Missing` stands for
      `undefined` and `null`; `EmptyText` for the empty string; `Text(t)` for
      a non-empty date string that denotes timestamp `t`; `Number(n)` for a
      numeric timestamp. */
  datatype DateArg = Missing | EmptyText | Text(t: int) | Number(n: int)

  /** JavaScript truthiness of a date argument: the empty string and the
      number 0 are falsy like `undefined`; every non-empty string is truthy. */
  predicate Truthy(a: DateArg) {
    match a
    case Missing => false
    case EmptyText => false
    case Text(_) => true
    case Number(n) => n != 0
  }

  /** The timestamp `new Date(a)` denotes. */
  function Timestamp(a: DateArg): int
    requires Truthy(a)
  {
    match a
    case Text(t) => t
    case Number(n) => n
  }

  /** The bound a date argument contributes: none when the argument is falsy. */
  function BoundOf(a: DateArg): Option<int> {
    if Truthy(a) then Some(Timestamp(a)) else None
  }

  /** One condition of a store filter: equality with a string value, or an
      inclusive range with optional `$gte` and `$lte` ends. */
  datatype Cond = Equals(value: string) | Between(gte: Option<int>, lte: Option<int>)

  /** A store filter: field name to condition. */
  type Query = map<string, Cond>

  const CreatedAt: string := "createdAt"

  /** Whether timestamp `t` lies inside a range condition, both ends inclusive. */
  predicate InRange(c: Cond, t: int) {
    && c.Between?
    && (c.gte.Some? ==> c.gte.value <= t)
    && (c.lte.Some? ==> t <= c.lte.value)
  }

  /** The filter on `createdAt` built from an optional start and end. */
  function QueryDateRange(startDate: DateArg, endDate: DateArg): (q: Query)
    ensures q.Keys <= {CreatedAt}
    ensures CreatedAt in q <==> Truthy(startDate) || Truthy(endDate)
    ensures CreatedAt in q ==> q[CreatedAt].Between?
    ensures CreatedAt in q ==> (q[CreatedAt].gte.Some? <==> Truthy(startDate))
    ensures CreatedAt in q ==> (q[CreatedAt].lte.Some? <==> Truthy(endDate))
    ensures CreatedAt in q && Truthy(startDate) ==> q[CreatedAt].gte.value == Timestamp(startDate)
    ensures CreatedAt in q && Truthy(endDate) ==> q[CreatedAt].lte.value == Timestamp(endDate)
  {
    if Truthy(startDate) || Truthy(endDate) then
      map[CreatedAt := Between(BoundOf(startDate), BoundOf(endDate))]
    else
      map[]
  }

  /** Whether an order created at `createdAt` passes the `createdAt` part of
      filter `q`; a filter without that key places no restriction. */
  predicate Matches(q: Query, createdAt: int)
    ensures CreatedAt !in q ==> Matches(q, createdAt)
    ensures CreatedAt in q && q[CreatedAt] == Between(Some(createdAt), Some(createdAt)) ==> Matches(q, createdAt)
    ensures (CreatedAt in q && q[CreatedAt].Between? && q[CreatedAt].gte.Some?
             && createdAt < q[CreatedAt].gte.value) ==> !Matches(q, createdAt)
    ensures (CreatedAt in q && q[CreatedAt].Between? && q[CreatedAt].lte.Some?
             && q[CreatedAt].lte.value < createdAt) ==> !Matches(q, createdAt)
    ensures CreatedAt in q && q[CreatedAt].Equals? ==> !Matches(q, createdAt)
  {
    CreatedAt !in q || InRange(q[CreatedAt], createdAt)
  }

  /** Membership in the built filter, stated independently of its shape:
      inside the inclusive interval whose ends are the truthy arguments. */
  lemma MatchesIff(startDate: DateArg, endDate: DateArg, createdAt: int)
    ensures Matches(QueryDateRange(startDate, endDate), createdAt) <==>
              ((Truthy(startDate) ==> Timestamp(startDate) <= createdAt)
               && (Truthy(endDate) ==> createdAt <= Timestamp(endDate)))
  {
  }

  /** With neither bound, the filter is empty and every timestamp matches. */
  lemma NoBoundsMatchesAll(startDate: DateArg, endDate: DateArg, createdAt: int)
    requires !Truthy(startDate) && !Truthy(endDate)
    ensures QueryDateRange(startDate, endDate) == map[]
    ensures Matches(QueryDateRange(startDate, endDate), createdAt)
  {
  }

  /** A falsy argument is indistinguishable from an absent one. */
  lemma FalsyIsAbsent(startDate: DateArg, endDate: DateArg)
    ensures !Truthy(startDate) ==> QueryDateRange(startDate, endDate) == QueryDateRange(Missing, endDate)
    ensures !Truthy(endDate) ==> QueryDateRange(startDate, endDate) == QueryDateRange(startDate, Missing)
  {
  }

  /** Only a start: a lower bound and no upper bound. */
  lemma OnlyStart(startDate: DateArg, endDate: DateArg)
    requires Truthy(startDate) && !Truthy(endDate)
    ensures QueryDateRange(startDate, endDate) == map[CreatedAt := Between(Some(Timestamp(startDate)), None)]
  {
  }

  /** Only an end: an upper bound and no lower bound. */
  lemma OnlyEnd(startDate: DateArg, endDate: DateArg)
    requires !Truthy(startDate) && Truthy(endDate)
    ensures QueryDateRange(startDate, endDate) == map[CreatedAt := Between(None, Some(Timestamp(endDate)))]
  {
  }

  /** Both bounds: a timestamp matches exactly when start <= t <= end, so
      both ends of the interval are included. */
  lemma BothBounds(startDate: DateArg, endDate: DateArg, createdAt: int)
    requires Truthy(startDate) && Truthy(endDate)
    ensures QueryDateRange(startDate, endDate)
         == map[CreatedAt := Between(Some(Timestamp(startDate)), Some(Timestamp(endDate)))]
    ensures Matches(QueryDateRange(startDate, endDate), createdAt) <==>
              Timestamp(startDate) <= createdAt <= Timestamp(endDate)
  {
  }

  /** The epoch given as the number 0 is falsy and so places no bound, while
      the same instant given as a date string does. */
  lemma ZeroNumberIsNoBound()
    ensures QueryDateRange(Number(0), Missing) == map[]
    ensures QueryDateRange(Text(0), Missing) == map[CreatedAt := Between(Some(0), None)]
    ensures !Matches(QueryDateRange(Text(0), Missing), -1)
    ensures Matches(QueryDateRange(Number(0), Missing), -1)
  {
  }
}
