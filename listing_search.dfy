/**
 * The home page's listing search: optional query filters become a SQL WHERE
 * fragment plus the array of values bound to its `?` placeholders.
 */
module ListingSearch {
  import opened JsValues
  import opened Strings

  /** The `req.query` fields the home page reads (`type` is `kind` here). */
  datatype SearchQuery = SearchQuery(location: Value, minPrice: Value, maxPrice: Value, q: Value, kind: Value)

  /** One WHERE condition and the values bound to its placeholders. */
  datatype Clause = Clause(sql: string, params: seq<Value>)

  const LocationCondition := "location LIKE " + "?"
  const MinPriceCondition := "price >= " + "?"
  const MaxPriceCondition := "price <= " + "?"
  const TextCondition := "(title LIKE " + "?" + " OR description LIKE " + "?" + ")"
  const Conjunction := " AND "

  /** The `%${v}%` pattern for a LIKE comparison. */
  function Like(v: Value): Value
  {
    Str("%" + ToText(v) + "%")
  }

  predicate AnyFilter(f: SearchQuery)
  {
    Truthy(f.location) || Truthy(f.minPrice) || Truthy(f.maxPrice) || Truthy(f.q) || Truthy(f.kind)
  }

  /** One `if (filter) { where.push(...); params.push(...) }` step. */
  function Step(cs: seq<Clause>, on: bool, c: Clause): seq<Clause>
  {
    if on then cs + [c] else cs
  }

  /** The conditions pushed once the location filter has been looked at. */
  function AfterLocation(f: SearchQuery): seq<Clause>
  {
    Step([], Truthy(f.location), Clause(LocationCondition, [Like(f.location)]))
  }

  function AfterMinPrice(f: SearchQuery): seq<Clause>
  {
    Step(AfterLocation(f), Truthy(f.minPrice), Clause(MinPriceCondition, [f.minPrice]))
  }

  function AfterMaxPrice(f: SearchQuery): seq<Clause>
  {
    Step(AfterMinPrice(f), Truthy(f.maxPrice), Clause(MaxPriceCondition, [f.maxPrice]))
  }

  function AfterText(f: SearchQuery): seq<Clause>
  {
    Step(AfterMaxPrice(f), Truthy(f.q), Clause(TextCondition, [Like(f.q), Like(f.q)]))
  }

  /** The conditions the filters switch on, in the fixed order location, min_price, max_price, q, type. */
  function Clauses(f: SearchQuery): seq<Clause>
  {
    Step(AfterText(f), Truthy(f.kind), Clause(TextCondition, [Like(f.kind), Like(f.kind)]))
  }

  function Conditions(cs: seq<Clause>): (r: seq<string>)
    ensures |r| == |cs| && forall i | 0 <= i < |cs| :: r[i] == cs[i].sql
  {
    if cs == [] then [] else Conditions(cs[..|cs| - 1]) + [cs[|cs| - 1].sql]
  }

  function Bound(cs: seq<Clause>): seq<Value>
  {
    if cs == [] then [] else Bound(cs[..|cs| - 1]) + cs[|cs| - 1].params
  }

  /** Every condition has exactly as many placeholders as it binds values. */
  predicate LockStep(cs: seq<Clause>)
  {
    forall i | 0 <= i < |cs| :: Count(cs[i].sql, '?') == |cs[i].params|
  }

  /** `where.length ? 'WHERE ' + where.join(' AND ') : ''`. */
  function WhereSql(conditions: seq<string>): string
  {
    if conditions == [] then "" else "WHERE " + Join(conditions, Conjunction)
  }

  /** Placeholders counted over the conditions equal the values bound, when each condition is in step. */
  lemma {:induction false} PlaceholdersMatchBound(cs: seq<Clause>)
    requires LockStep(cs)
    ensures CountAll(Conditions(cs), '?') == |Bound(cs)|
  {
    if cs != [] {
      var init := cs[..|cs| - 1];
      PlaceholdersMatchBound(init);
      assert Conditions(cs) == Conditions(init) + [cs[|cs| - 1].sql];
      CountAllAppend(Conditions(init), [cs[|cs| - 1].sql], '?');
      assert CountAll([cs[|cs| - 1].sql], '?') == Count(cs[|cs| - 1].sql, '?');
    }
  }

  lemma ConditionPlaceholders()
    ensures Count(LocationCondition, '?') == 1 && Count(MinPriceCondition, '?') == 1
    ensures Count(MaxPriceCondition, '?') == 1 && Count(TextCondition, '?') == 2
  {
    CountOne("location LIKE ", "", '?');
    assert LocationCondition == "location LIKE " + ['?'] + "";
    CountOne("price >= ", "", '?');
    assert MinPriceCondition == "price >= " + ['?'] + "";
    CountOne("price <= ", "", '?');
    assert MaxPriceCondition == "price <= " + ['?'] + "";
    CountTwo("(title LIKE ", " OR description LIKE ", ")", '?');
  }

  /** Each condition is in step with its values, and the two-placeholder text condition binds one pattern twice. */
  predicate WellFormed(cs: seq<Clause>)
  {
    LockStep(cs)
    && forall i | 0 <= i < |cs| && cs[i].sql == TextCondition :: |cs[i].params| == 2 && cs[i].params[0] == cs[i].params[1]
  }

  lemma StepKeeps(cs: seq<Clause>, on: bool, c: Clause)
    requires WellFormed(cs) && WellFormed([c])
    ensures WellFormed(Step(cs, on, c))
    ensures |Step(cs, on, c)| == |cs| + (if on then 1 else 0)
  {
  }

  /**
   * Each filter that is set contributes exactly one condition, and only set filters do; every
   * condition is in step with its values; the text filters bind the same pattern twice.
   */
  lemma {:induction false} ClausesShape(f: SearchQuery)
    ensures WellFormed(Clauses(f))
    ensures |Clauses(f)| ==
      (if Truthy(f.location) then 1 else 0) + (if Truthy(f.minPrice) then 1 else 0)
      + (if Truthy(f.maxPrice) then 1 else 0) + (if Truthy(f.q) then 1 else 0) + (if Truthy(f.kind) then 1 else 0)
    ensures Clauses(f) == [] <==> !AnyFilter(f)
  {
    ConditionPlaceholders();
    StepKeeps([], Truthy(f.location), Clause(LocationCondition, [Like(f.location)]));
    StepKeeps(AfterLocation(f), Truthy(f.minPrice), Clause(MinPriceCondition, [f.minPrice]));
    StepKeeps(AfterMinPrice(f), Truthy(f.maxPrice), Clause(MaxPriceCondition, [f.maxPrice]));
    StepKeeps(AfterMaxPrice(f), Truthy(f.q), Clause(TextCondition, [Like(f.q), Like(f.q)]));
    StepKeeps(AfterText(f), Truthy(f.kind), Clause(TextCondition, [Like(f.kind), Like(f.kind)]));
  }

  /** The first condition, when present, is the one of the earliest filter that is set. */
  lemma ClausesOrder(f: SearchQuery)
    ensures Truthy(f.location) ==> Clauses(f)[0] == Clause(LocationCondition, [Like(f.location)])
    ensures !Truthy(f.location) && Truthy(f.minPrice) ==> Clauses(f)[0] == Clause(MinPriceCondition, [f.minPrice])
    ensures Truthy(f.kind) ==> Clauses(f)[|Clauses(f)| - 1] == Clause(TextCondition, [Like(f.kind), Like(f.kind)])
  {
  }

  /** One step pushes the condition and its values exactly when the filter is set. */
  lemma StepSpec(cs: seq<Clause>, on: bool, c: Clause)
    ensures Conditions(Step(cs, on, c)) == if on then Conditions(cs) + [c.sql] else Conditions(cs)
    ensures Bound(Step(cs, on, c)) == if on then Bound(cs) + c.params else Bound(cs)
  {
    assert (cs + [c])[..|cs|] == cs;
  }

  /** One `if (filter) { where.push(condition); params.push(...values) }` step of the handler. */
  method PushWhen(where: seq<string>, params: seq<Value>, ghost done: seq<Clause>, on: bool, c: Clause)
    returns (where': seq<string>, params': seq<Value>)
    requires where == Conditions(done) && params == Bound(done)
    ensures where' == Conditions(Step(done, on, c)) && params' == Bound(Step(done, on, c))
  {
    StepSpec(done, on, c);
    where', params' := where, params;
    if on {
      where' := where + [c.sql];
      params' := params + c.params;
    }
  }

  /**
   * The filter-building part of the `GET /` handler, pushing onto `where` and `params` step by step.
   * The fragment is empty iff no filter is set, otherwise "WHERE " and the conditions joined by " AND "
   * in the fixed order; its placeholders match the bound values one for one.
   */
  method BuildFilter(f: SearchQuery) returns (whereSql: string, params: seq<Value>)
    ensures whereSql == WhereSql(Conditions(Clauses(f))) && params == Bound(Clauses(f))
    ensures whereSql == "" <==> !AnyFilter(f)
    ensures whereSql != "" ==> StartsWith(whereSql, "WHERE ")
    ensures Count(whereSql, '?') == |params|
  {
    var where: seq<string> := [];
    params := [];
    where, params := PushWhen(where, params, [], Truthy(f.location), Clause(LocationCondition, [Like(f.location)]));
    where, params := PushWhen(where, params, AfterLocation(f), Truthy(f.minPrice), Clause(MinPriceCondition, [f.minPrice]));
    where, params := PushWhen(where, params, AfterMinPrice(f), Truthy(f.maxPrice), Clause(MaxPriceCondition, [f.maxPrice]));
    where, params := PushWhen(where, params, AfterMaxPrice(f), Truthy(f.q), Clause(TextCondition, [Like(f.q), Like(f.q)]));
    where, params := PushWhen(where, params, AfterText(f), Truthy(f.kind), Clause(TextCondition, [Like(f.kind), Like(f.kind)]));
    whereSql := WhereSql(where);
    WhereFragment(f);
  }

  /** The fragment is empty iff no filter is set, otherwise it starts with "WHERE "; its placeholders match the values. */
  lemma WhereFragment(f: SearchQuery)
    ensures WhereSql(Conditions(Clauses(f))) == "" <==> !AnyFilter(f)
    ensures WhereSql(Conditions(Clauses(f))) != "" ==> StartsWith(WhereSql(Conditions(Clauses(f))), "WHERE ")
    ensures Count(WhereSql(Conditions(Clauses(f))), '?') == |Bound(Clauses(f))|
  {
    ClausesShape(f);
    WherePlaceholders(f);
  }

  /** The fragment built from a query's conditions has one placeholder per bound value. */
  lemma WherePlaceholders(f: SearchQuery)
    ensures Count(WhereSql(Conditions(Clauses(f))), '?') == |Bound(Clauses(f))|
  {
    var cs := Clauses(f);
    ClausesShape(f);
    PlaceholdersMatchBound(cs);
    assert '?' !in Conjunction;
    CountAbsent(Conjunction, '?');
    CountJoin(Conditions(cs), Conjunction, '?');
    if cs != [] {
      assert '?' !in "WHERE ";
      CountAbsent("WHERE ", '?');
      CountAppend("WHERE ", Join(Conditions(cs), Conjunction), '?');
    }
  }

  const SelectListings :=
    "SELECT l.*, (\n      " + "SELECT url " + "FROM listing_images i " + "WHERE i.listing_id = l.id "
    + "LIMIT 1\n    ) " + "as image_url " + "FROM listings l "
  const NewestFirst := " ORDER BY " + "created_at DESC"

  lemma StatementFree()
    ensures Count(SelectListings, '?') == 0 && Count(NewestFirst, '?') == 0
  {
    assert '?' !in SelectListings;
    assert '?' !in NewestFirst;
    CountAbsent(SelectListings, '?');
    CountAbsent(NewestFirst, '?');
  }

  /** The statement the handler runs: the fragment sits between `FROM listings l` and the newest-first ordering. */
  function ListingsSql(whereSql: string): string
  {
    SelectListings + whereSql + NewestFirst
  }

  /** The whole statement, not just the fragment, has one placeholder per bound value. */
  lemma ListingsSqlPlaceholders(f: SearchQuery)
    ensures Count(ListingsSql(WhereSql(Conditions(Clauses(f)))), '?') == |Bound(Clauses(f))|
  {
    var w := WhereSql(Conditions(Clauses(f)));
    WherePlaceholders(f);
    StatementFree();
    CountAppend(SelectListings, w, '?');
    CountAppend(SelectListings + w, NewestFirst, '?');
  }
}
