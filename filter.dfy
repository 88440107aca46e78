/**
 * The listing filter of SelectProperties (handler/property.go).  The
 * handler builds a query clause by clause; each clause is modelled by the
 * condition it puts on a listing, not by its SQL text.  A listing is
 * selected when it meets every clause: the address clause, a price clause
 * and a size clause (each an OR of half-open buckets), and an IN clause per
 * enumerated facet.
 */
module Filter {

  import opened Text
  import opened Decimal
  import opened Schema

  /** Go's math.MaxFloat64, exactly: (2^53 - 1) * 2^971. */
  const MaxFloat64: real := 179769313486231570814527423731704356798070567525844996598917476803157260780028538760589558632766878171540458953514382464234321326889464182768467546703537516986049910576551282076245490090389328944075868508455133942304583236903222948165808559332123348274797826204144723168738177180919299881250404026184124858368.0

  /** A half-open range [lo, hi). */
  datatype Range = Range(lo: real, hi: real)

  predicate InRange(x: real, r: Range)
  {
    r.lo <= x < r.hi
  }

  /** The price buckets, selected by index. */
  const PriceTable: seq<Range> :=
    [Range(0.0, 100.0), Range(100.0, 300.0), Range(300.0, 500.0), Range(500.0, 1000.0), Range(1000.0, MaxFloat64)]

  /** The size buckets, selected by index. */
  const SizeTable: seq<Range> :=
    [Range(0.0, 50.0), Range(50.0, 100.0), Range(100.0, 150.0), Range(150.0, 200.0), Range(200.0, MaxFloat64)]

  datatype Measure = Price | Size

  function MeasureOf(p: Property, m: Measure): real
  {
    match m
    case Price => p.price
    case Size => p.size
  }

  /** The enumerated columns a request can restrict with IN. */
  datatype Facet = Special | Room | Direction | Height | Renovation | SubjectMatter

  function FacetOf(p: Property, f: Facet): int
  {
    match f
    case Special => p.special
    case Room => p.room
    case Direction => p.direction
    case Height => p.height
    case Renovation => p.renovation
    case SubjectMatter => p.subjectMatter
  }

  /** One WHERE clause of the query. */
  datatype Clause =
    | DistinctLike(prefix: string)                   // CAST("distinct" AS TEXT) LIKE 'prefix%'
    | DistinctIs(code: int)                          // "distinct" = code
    | InAnyRange(measure: Measure, ranges: seq<Range>) // (m >= lo AND m < hi) OR ...
    | In(facet: Facet, values: seq<int>)             // facet IN (values)

  predicate Holds(c: Clause, p: Property)
  {
    match c
    case DistinctLike(prefix) => HasPrefix(FormatInt(p.address.distinct), prefix)
    case DistinctIs(code) => p.address.distinct == code
    case InAnyRange(m, ranges) => exists i :: 0 <= i < |ranges| && InRange(MeasureOf(p, m), ranges[i])
    case In(f, values) => FacetOf(p, f) in values
  }

  /** A listing meets a query when it meets all of its clauses. */
  predicate Satisfies(query: seq<Clause>, p: Property)
  {
    forall i :: 0 <= i < |query| ==> Holds(query[i], p)
  }

  lemma SatisfiesAppend(query: seq<Clause>, c: Clause, p: Property)
    ensures Satisfies(query + [c], p) <==> Satisfies(query, p) && Holds(c, p)
  {
    assert forall i :: 0 <= i < |query| ==> (query + [c])[i] == query[i];
    assert (query + [c])[|query|] == c;
  }

  datatype AddressFilter = AddressFilter(province: int, city: int, distinct: int)

  /** The body of a select request; every list may be empty. */
  datatype SelectPropertiesRequest = SelectPropertiesRequest(
    address: AddressFilter,
    price: seq<int>,
    size: seq<int>,
    special: seq<int>,
    room: seq<int>,
    direction: seq<int>,
    height: seq<int>,
    renovation: seq<int>,
    subjectMatter: seq<int>)

  predicate IndicesIn(indices: seq<int>, table: seq<Range>)
  {
    forall i :: 0 <= i < |indices| ==> 0 <= indices[i] < |table|
  }

  /** The bucket indices are used unchecked; an index outside the tables
      makes the handler panic. */
  predicate BucketsInRange(req: SelectPropertiesRequest)
  {
    IndicesIn(req.price, PriceTable) && IndicesIn(req.size, SizeTable)
  }

  // ------------------------------------------------ what a request selects

  /** The address rule: no restriction when the province is 0; a city of 1
      selects by the province's two leading digits, a district of 0 by the
      city's four leading digits, and otherwise the district must be equal.
      Codes are compared as decimal text, as the query does. */
  predicate AddressMatches(a: AddressFilter, d: int)
  {
    if a.province == 0 then true
    else if a.city == 1 then HasPrefix(FormatInt(d), PadZero(Quo(a.province, 10000), 2))
    else if a.distinct == 0 then HasPrefix(FormatInt(d), PadZero(Quo(a.city, 100), 4))
    else d == a.distinct
  }

  /** A bucket list: no restriction when empty, otherwise the value lies in
      at least one of the chosen buckets. */
  predicate InChosenBucket(x: real, table: seq<Range>, indices: seq<int>)
    requires IndicesIn(indices, table)
  {
    |indices| == 0 || exists i :: 0 <= i < |indices| && InRange(x, table[indices[i]])
  }

  /** A facet list: no restriction when empty, otherwise membership. */
  predicate FacetAllows(values: seq<int>, v: int)
  {
    |values| == 0 || v in values
  }

  /** What SelectProperties returns a listing for. */
  predicate Selects(req: SelectPropertiesRequest, p: Property)
    requires BucketsInRange(req)
  {
    && AddressMatches(req.address, p.address.distinct)
    && InChosenBucket(p.price, PriceTable, req.price)
    && InChosenBucket(p.size, SizeTable, req.size)
    && FacetAllows(req.special, p.special)
    && FacetAllows(req.room, p.room)
    && FacetAllows(req.direction, p.direction)
    && FacetAllows(req.height, p.height)
    && FacetAllows(req.renovation, p.renovation)
    && FacetAllows(req.subjectMatter, p.subjectMatter)
  }

  // ------------------------------------------------- building the query

  /** The ranges the bucket loop collects, one per chosen index, in order. */
  method BucketConditions(table: seq<Range>, indices: seq<int>) returns (conditions: seq<Range>)
    requires IndicesIn(indices, table)
    ensures |conditions| == |indices|
    ensures forall i :: 0 <= i < |indices| ==> conditions[i] == table[indices[i]]
  {
    conditions := [];
    var i := 0;
    while i < |indices|
      invariant 0 <= i <= |indices|
      invariant |conditions| == i
      invariant forall j :: 0 <= j < i ==> conditions[j] == table[indices[j]]
    {
      conditions := conditions + [table[indices[i]]];
      i := i + 1;
    }
  }

  /** Adds the OR of the chosen buckets of one measure, when any are chosen. */
  method WhereInBuckets(query: seq<Clause>, m: Measure, table: seq<Range>, indices: seq<int>)
    returns (query': seq<Clause>)
    requires IndicesIn(indices, table)
    ensures forall p :: Satisfies(query', p) <==> Satisfies(query, p) && InChosenBucket(MeasureOf(p, m), table, indices)
  {
    query' := query;
    if |indices| > 0 {
      var conditions := BucketConditions(table, indices);
      var c := InAnyRange(m, conditions);
      query' := query + [c];
      forall p ensures Satisfies(query', p) <==> Satisfies(query, p) && InChosenBucket(MeasureOf(p, m), table, indices) {
        SatisfiesAppend(query, c, p);
      }
    }
  }

  /** Adds `facet IN values`, when the list is not empty. */
  method WhereIn(query: seq<Clause>, f: Facet, values: seq<int>) returns (query': seq<Clause>)
    ensures forall p :: Satisfies(query', p) <==> Satisfies(query, p) && FacetAllows(values, FacetOf(p, f))
  {
    query' := query;
    if |values| > 0 {
      query' := query + [In(f, values)];
      forall p ensures Satisfies(query', p) <==> Satisfies(query, p) && FacetAllows(values, FacetOf(p, f)) {
        SatisfiesAppend(query, In(f, values), p);
      }
    }
  }

  /** Adds the address clause chosen by the three-way precedence. */
  method WhereAddress(a: AddressFilter) returns (query: seq<Clause>)
    ensures forall p :: Satisfies(query, p) <==> AddressMatches(a, p.address.distinct)
  {
    query := [];
    if a.province != 0 {
      if a.city == 1 {
        query := [DistinctLike(PadZero(Quo(a.province, 10000), 2))];
      } else if a.distinct == 0 {
        query := [DistinctLike(PadZero(Quo(a.city, 100), 4))];
      } else {
        query := [DistinctIs(a.distinct)];
      }
      assert forall p :: Satisfies(query, p) <==> Holds(query[0], p);
    }
  }

  /** SelectProperties' query: the listings it satisfies are exactly the
      ones the request selects. */
  method SelectQuery(req: SelectPropertiesRequest) returns (query: seq<Clause>)
    requires BucketsInRange(req)
    ensures forall p :: Satisfies(query, p) <==> Selects(req, p)
  {
    query := WhereAddress(req.address);
    query := WhereInBuckets(query, Price, PriceTable, req.price);
    query := WhereInBuckets(query, Size, SizeTable, req.size);
    query := WhereIn(query, Special, req.special);
    query := WhereIn(query, Room, req.room);
    query := WhereIn(query, Direction, req.direction);
    query := WhereIn(query, Height, req.height);
    query := WhereIn(query, Renovation, req.renovation);
    query := WhereIn(query, SubjectMatter, req.subjectMatter);
  }

  // ------------------------------------------------------------ properties

  /** A request with province 0 and no lists selects every listing. */
  lemma EmptyRequestSelectsAll(req: SelectPropertiesRequest, p: Property)
    requires req.address.province == 0
    requires req.price == [] && req.size == [] && req.special == [] && req.room == []
    requires req.direction == [] && req.height == [] && req.renovation == [] && req.subjectMatter == []
    ensures Selects(req, p)
  {
  }

  /** The buckets of each table cover [0, MaxFloat64) without overlap. */
  lemma BucketsPartition(x: real)
    ensures 0.0 <= x < MaxFloat64 ==>
              (exists i :: 0 <= i < 5 && InRange(x, PriceTable[i]))
              && (exists i :: 0 <= i < 5 && InRange(x, SizeTable[i]))
    ensures forall i, j :: 0 <= i < j < 5 ==> !(InRange(x, PriceTable[i]) && InRange(x, PriceTable[j]))
    ensures forall i, j :: 0 <= i < j < 5 ==> !(InRange(x, SizeTable[i]) && InRange(x, SizeTable[j]))
    ensures x < 0.0 || x >= MaxFloat64 ==>
              forall i :: 0 <= i < 5 ==> !InRange(x, PriceTable[i]) && !InRange(x, SizeTable[i])
  {
    if 0.0 <= x < MaxFloat64 {
      var i := if x < 100.0 then 0 else if x < 300.0 then 1 else if x < 500.0 then 2 else if x < 1000.0 then 3 else 4;
      assert InRange(x, PriceTable[i]);
      var j := if x < 50.0 then 0 else if x < 100.0 then 1 else if x < 150.0 then 2 else if x < 200.0 then 3 else 4;
      assert InRange(x, SizeTable[j]);
    }
  }

  /** Price buckets 1 and 3 ([100, 300) and [500, 1000)) take 250 and 600 and
      leave out 50. */
  lemma PriceBucketExample(req: SelectPropertiesRequest, p: Property)
    requires req.price == [1, 3] && BucketsInRange(req)
    ensures p.price == 250.0 || p.price == 600.0 ==> InChosenBucket(p.price, PriceTable, req.price)
    ensures p.price == 50.0 ==> !InChosenBucket(p.price, PriceTable, req.price)
  {
    if p.price == 250.0 {
      assert InRange(p.price, PriceTable[req.price[0]]);
    }
    if p.price == 600.0 {
      assert InRange(p.price, PriceTable[req.price[1]]);
    }
  }

  /** With a city of 1, a six-digit district is selected exactly when its
      two leading digits are those of a six-digit province code. */
  lemma ProvinceTier(a: AddressFilter, d: int)
    requires a.city == 1 && 100000 <= a.province <= 999999 && 100000 <= d <= 999999
    ensures AddressMatches(a, d) <==> d / 10000 == a.province / 10000
  {
    var q := a.province / 10000;
    QuoOfNatural(a.province, 10000);
    SixDigitPrefixes(d);
    PadTwoDigits(q);
    assert FormatInt(d) == Digits(d);
    assert HasPrefix(Digits(d), Digits(q)) <==> Digits(d / 10000) == Digits(q);
    DigitsInjective(d / 10000, q);
  }

  /** With a district of 0, a six-digit district is selected exactly when its
      four leading digits are those of a six-digit city code. */
  lemma CityTier(a: AddressFilter, d: int)
    requires a.province != 0 && a.city != 1 && a.distinct == 0
    requires 100000 <= a.city <= 999999 && 100000 <= d <= 999999
    ensures AddressMatches(a, d) <==> d / 100 == a.city / 100
  {
    var q := a.city / 100;
    QuoOfNatural(a.city, 100);
    SixDigitPrefixes(d);
    PadFourDigits(q);
    assert FormatInt(d) == Digits(d);
    assert HasPrefix(Digits(d), Digits(q)) <==> Digits(d / 100) == Digits(q);
    DigitsInjective(d / 100, q);
  }

  /** A province code below 10000 asks for the prefix "00", which no
      six-digit district has. */
  lemma ShortProvinceSelectsNoDistrict(a: AddressFilter, d: int)
    requires a.city == 1 && 0 < a.province < 10000 && 100000 <= d <= 999999
    ensures !AddressMatches(a, d)
  {
    var q := Quo(a.province, 10000);
    assert q == 0 by {
      QuoOfNatural(a.province, 10000);
    }
    var prefix := PadZero(q, 2);
    assert prefix[0] == '0' by {
      assert Digits(0) == "0";
    }
    SixDigitLeadsNonZero(d);
    assert FormatInt(d) == Digits(d);
  }
}
