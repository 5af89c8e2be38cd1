/** The price and area filters of the property list: the inclusive `min_*`/`max_*` bounds and
    the `"min-max"` price-range parameter. */
module PriceFilters {
  import opened Text
  import opened Tables
  import opened PropertyModels

  // ---------------------------------------------------------------------------
  // min_price, max_price, min_area, max_area
  // ---------------------------------------------------------------------------

  /** The decimal column a bound applies to. */
  datatype Column = Price | Area

  /** `lookup_expr='gte'` or `lookup_expr='lte'` with the given value. */
  datatype Bound = AtLeast(v: real) | AtMost(v: real)

  function ColumnValue(p: Property, c: Column): real {
    if c == Price then p.price else p.area
  }

  predicate Within(x: real, b: Bound) {
    if b.AtLeast? then x >= b.v else x <= b.v
  }

  function Keeps(c: Column, b: Bound): Property -> bool {
    (p: Property) => Within(ColumnValue(p, c), b)
  }

  /** One of the four `NumberFilter` bounds: the rows whose column lies on the right side of
      the value, the value itself included. */
  function BoundFilter(ps: seq<Property>, c: Column, b: Bound): (r: seq<Property>)
    ensures forall p :: p in r <==> p in ps && (if b.AtLeast? then ColumnValue(p, c) >= b.v else ColumnValue(p, c) <= b.v)
  {
    Filter(ps, Keeps(c, b))
  }

  /** The bounds are inclusive: a row whose column equals the value passes both the lower and
      the upper bound. */
  lemma BoundsInclusive(ps: seq<Property>, c: Column, p: Property)
    requires p in ps
    ensures p in BoundFilter(ps, c, AtLeast(ColumnValue(p, c)))
    ensures p in BoundFilter(ps, c, AtMost(ColumnValue(p, c)))
  {
  }

  // ---------------------------------------------------------------------------
  // filter_price_range
  // ---------------------------------------------------------------------------

  /** What the parameter means once split and parsed: no filtering, an inclusive range, or an
      exception that escapes the filter. */
  datatype RangeParse = Unfiltered | Range(lo: real, hi: real) | Crash

  /** The parsing part of `filter_price_range` as written. `parse` is `Decimal(...)`: `None`
      when it raises `InvalidOperation`, which is not a `ValueError` and so is not caught. A
      value without `-` is not a range; one that does not split into exactly two pieces fails
      the unpacking with a caught `ValueError`; otherwise both stripped halves are parsed. */
  function ParseRangeAsWritten(value: string, parse: string -> Option<real>): (r: RangeParse)
    ensures '-' !in value ==> r == Unfiltered
    ensures !r.Unfiltered? ==> (|Split(value, '-')| == 2
      && value == Split(value, '-')[0] + "-" + Split(value, '-')[1])
  {
    if '-' !in value then Unfiltered
    else
      var pieces := Split(value, '-');
      if |pieces| != 2 then Unfiltered
      else
        JoinTwo(value, pieces);
        var lo := parse(Strip(pieces[0]));
        var hi := parse(Strip(pieces[1]));
        if lo.None? || hi.None? then Crash
        else Range(lo.value, hi.value)
  }

  /** A string that splits into two pieces is the two pieces joined by the separator. */
  lemma JoinTwo(value: string, pieces: seq<string>)
    requires pieces == Split(value, '-') && |pieces| == 2
    ensures value == pieces[0] + "-" + pieces[1]
  {
    JoinSplit(value, '-');
    assert Join(pieces[1..], "-") == pieces[1];
  }

  /** Two dash-free halves split back into exactly those halves. */
  lemma SplitTwo(a: string, b: string)
    requires '-' !in a && '-' !in b
    ensures Split(a + "-" + b, '-') == [a, b]
  {
    SplitNoSeparator(b, '-');
    SplitAfterPrefix(a, '-', b);
  }

  /** `"a-b"` with dash-free halves is the range of the two parsed, stripped halves, or the
      escaping exception when either half does not parse. */
  lemma RangeOfTwoHalves(a: string, b: string, parse: string -> Option<real>)
    requires '-' !in a && '-' !in b
    ensures parse(Strip(a)).Some? && parse(Strip(b)).Some? ==>
      ParseRangeAsWritten(a + "-" + b, parse) == Range(parse(Strip(a)).value, parse(Strip(b)).value)
    ensures parse(Strip(a)).None? || parse(Strip(b)).None? ==>
      ParseRangeAsWritten(a + "-" + b, parse) == Crash
  {
    SplitTwo(a, b);
    assert '-' in a + "-" + b by {
      assert (a + "-" + b)[|a|] == '-';
    }
  }

  /** A value with two dashes is left unfiltered: the unpacking fails and is caught. */
  lemma TwoDashesUnfiltered(a: string, b: string, c: string, parse: string -> Option<real>)
    requires '-' !in a && '-' !in b && '-' !in c
    ensures ParseRangeAsWritten(a + "-" + b + "-" + c, parse) == Unfiltered
  {
    var bc := b + "-" + c;
    assert a + "-" + b + "-" + c == a + "-" + bc;
    SplitTwo(b, c);
    SplitAfterPrefix(a, '-', bc);
  }

  /** `price__gte=min_price, price__lte=max_price` */
  function PriceBetween(lo: real, hi: real): Property -> bool {
    (p: Property) => lo <= p.price <= hi
  }

  /** What `filter_price_range` returns, or that it raised. */
  datatype FilterResult = Filtered(rows: seq<Property>) | Raised

  /** `filter_price_range` as written: a half that `Decimal` rejects raises through the filter;
      otherwise its answer is the corrected filter's. */
  function FilterPriceRangeAsWritten(ps: seq<Property>, value: string, parse: string -> Option<real>): (r: FilterResult)
    ensures r.Raised? <==> ParseRangeAsWritten(value, parse).Crash?
    ensures r.Filtered? ==> r.rows == FilterPriceRange(ps, value, parse)
  {
    match ParseRangeAsWritten(value, parse)
    case Unfiltered => Filtered(ps)
    case Range(lo, hi) => Filtered(Filter(ps, PriceBetween(lo, hi)))
    case Crash => Raised
  }

  /** As written, a range without its lower bound, such as `"-5000"`, makes the filter raise,
      because `Decimal("")` raises `InvalidOperation`; the corrected filter leaves the list
      unchanged instead. */
  lemma MissingLowerBoundRaises(ps: seq<Property>, hi: string, parse: string -> Option<real>)
    requires '-' !in hi
    requires parse("") == None
    ensures FilterPriceRangeAsWritten(ps, "-" + hi, parse) == Raised
    ensures FilterPriceRange(ps, "-" + hi, parse) == ps
  {
    assert "-" + hi == "" + "-" + hi;
    assert Strip("") == "";
    RangeOfTwoHalves("", hi, parse);
  }

  /** `filter_price_range` with every parse failure caught, as its `try` evidently intends: a
      range keeps exactly the rows priced within it, bounds included; anything else leaves the
      list as it is. */
  function FilterPriceRange(ps: seq<Property>, value: string, parse: string -> Option<real>): (r: seq<Property>)
    ensures '-' !in value ==> r == ps
    ensures ParseRangeAsWritten(value, parse).Range? ==>
      var lo := ParseRangeAsWritten(value, parse).lo;
      var hi := ParseRangeAsWritten(value, parse).hi;
      forall p :: p in r <==> p in ps && lo <= p.price && p.price <= hi
    ensures !ParseRangeAsWritten(value, parse).Range? ==> r == ps
  {
    match ParseRangeAsWritten(value, parse)
    case Range(lo, hi) => Filter(ps, PriceBetween(lo, hi))
    case _ => ps
  }

  /** A reversed range keeps nothing. */
  lemma ReversedRangeEmpty(ps: seq<Property>, value: string, parse: string -> Option<real>)
    requires ParseRangeAsWritten(value, parse).Range?
    requires ParseRangeAsWritten(value, parse).lo > ParseRangeAsWritten(value, parse).hi
    ensures FilterPriceRange(ps, value, parse) == []
  {
  }

  /** The range parameter is the `min_price` filter followed by the `max_price` filter. */
  lemma RangeIsTwoBounds(ps: seq<Property>, value: string, parse: string -> Option<real>)
    requires ParseRangeAsWritten(value, parse).Range?
    ensures FilterPriceRange(ps, value, parse) ==
      BoundFilter(BoundFilter(ps, Price, AtLeast(ParseRangeAsWritten(value, parse).lo)), Price,
                  AtMost(ParseRangeAsWritten(value, parse).hi))
  {
    var lo := ParseRangeAsWritten(value, parse).lo;
    var hi := ParseRangeAsWritten(value, parse).hi;
    FilterFilter(ps, Keeps(Price, AtLeast(lo)), Keeps(Price, AtMost(hi)), PriceBetween(lo, hi));
  }
}
