/**
  What a request means (pkg/paginate/paginate.go), said of its texts: which number a
  page parameter denotes, which filters a query has, and that a request written from
  its parts parses back to them.
*/
module Requests {
  import opened Strings
  import opened Pagination

  // ---------- numbers ----------

  /** The decimal text of a number from 1 to the largest 64-bit one, also behind zeros or a `+`. */
  ghost predicate Denotes(s: string, n: nat) {
    && 1 <= n <= 9_223_372_036_854_775_807
    && (Decimals(s, n) || (s != "" && s[0] == '+' && Decimals(s[1..], n)))
  }

  /** `n` is the number that the first value of the key denotes, or the default when it denotes none. */
  ghost predicate GivenNumber(query: Query, key: string, n: int, default: int) {
    if exists m: nat :: key in query && query[key] != [] && Denotes(query[key][0], m)
    then n > 0 && Denotes(query[key][0], n)
    else n == default
  }

  lemma AtoiDenotes(s: string)
    ensures match Atoi(s)
            case Some(n) => n > 0 ==> Denotes(s, n)
            case None => true
  {
    hide Value, Decimals;
    var digits := if s != "" && s[0] in "+-" then s[1..] else s;
    if IsDigits(digits) { DigitsDenoteTheirValue(digits); }
  }

  lemma DenotesAtoi(s: string, n: nat)
    requires Denotes(s, n)
    ensures Atoi(s) == Some(n)
  {
    hide Value, Decimals;
    if Decimals(s, n) {
      DecimalsAreDigits(s, n);
      assert s[0] in s;
    } else {
      DecimalsAreDigits(s[1..], n);
    }
  }

  lemma NumberExactly(s: string, default: int)
    ensures forall n: nat | Denotes(s, n) :: PositiveOr(s, default) == n
    ensures (forall n: nat :: !Denotes(s, n)) ==> PositiveOr(s, default) == default
    ensures forall m: nat, n: nat | Denotes(s, m) && Denotes(s, n) :: m == n
  {
    hide Denotes, Atoi;
    AtoiDenotes(s);
    forall n: nat | Denotes(s, n) ensures Atoi(s) == Some(n) && n > 0 {
      DenotesAtoi(s, n);
      Positive(s, n);
    }
  }

  lemma Positive(s: string, n: nat)
    requires Denotes(s, n)
    ensures n > 0
  {
  }

  /** The empty text, which `Get` yields without a value, denotes nothing. */
  lemma NothingDenotes()
    ensures forall n: nat :: !Denotes("", n)
  {
    forall n: nat ensures !Denotes("", n) {
      if Decimals("", n) { DecimalsAreDigits("", n); }
    }
  }

  /** Page and page size: each from the first value of its own key, else 1 and 10. */
  lemma NumbersExactly(query: Query, order: seq<string>)
    requires IsOrder(query, order)
    ensures GivenNumber(query, "page", Parsed(query, order).page, 1)
    ensures GivenNumber(query, "per_page", Parsed(query, order).perPage, 10)
  {
    hide Denotes, PositiveOr, FiltersOf, AddSorts, FieldsOf;
    NothingDenotes();
    NumberExactly(First(query, "page"), 1);
    NumberExactly(First(query, "per_page"), 10);
    forall s: string, n: nat | Denotes(s, n) ensures n > 0 { Positive(s, n); }
  }

  /** The first value of `fields`, cut at its commas. */
  lemma FieldsExactly(query: Query, order: seq<string>)
    requires IsOrder(query, order)
    ensures var fields := Parsed(query, order).fields;
      if "fields" in query && query["fields"] != [] && query["fields"][0] != "" then
        fields != [] && Join(fields, ",") == query["fields"][0] && forall f | f in fields :: ',' !in f
      else fields == []
  {
    hide PositiveOr, FiltersOf, AddSorts, Split;
    JoinSplit(First(query, "fields"), ',');
    SplitClean(First(query, "fields"), ',');
  }

  // ---------- filters and sorts ----------

  const CONDITIONS: set<string> := {"eq", "neq", "gt", "gte", "lt", "lte", "in", "between", "like"}

  function Pairs(filters: seq<Filter>): set<(string, string)> {
    set f | f in filters :: (f.key, f.value)
  }

  lemma {:induction false} PairsOfValues(filters: seq<Filter>, key: string, values: seq<string>)
    ensures forall k, v :: (k, v) in Pairs(AddValues(filters, key, values)) <==>
              (k, v) in Pairs(filters) || (k == key && v in values && v !in CONDITIONS)
  {
    if values != [] {
      var front, last := values[..|values| - 1], values[|values| - 1];
      PairsOfValues(filters, key, front);
      PairsOfOne(AddValues(filters, key, front), key, last);
      assert forall v :: v in values <==> v in front || v == last;
    }
  }

  lemma PairsOfOne(filters: seq<Filter>, key: string, v: string)
    ensures Pairs(AddValue(filters, key, v)) == Pairs(filters) + if v in CONDITIONS then {} else {(key, v)}
  {
    var after := AddValue(filters, key, v);
    if v in CONDITIONS {
      assert |after| == |filters|;
      assert forall i | 0 <= i < |filters| :: (after[i].key, after[i].value) == (filters[i].key, filters[i].value);
      forall f | f in filters ensures (f.key, f.value) in Pairs(after) {
        var i :| 0 <= i < |filters| && filters[i] == f;
        assert after[i] in after;
      }
      forall f | f in after ensures (f.key, f.value) in Pairs(filters) {
        var i :| 0 <= i < |after| && after[i] == f;
        assert filters[i] in filters;
      }
    } else {
      assert after[|filters|] == Filter(key, v, EQ);
      assert forall f | f in filters :: f in after;
    }
  }

  /** The keys that make filters: no blank, no semicolon, and none of the four reserved ones. */
  predicate FilterKey(key: string) {
    ' ' !in key && ';' !in key && key !in {"page", "per_page", "fields", "sort"}
  }

  lemma {:induction false} PairsOfKeys(query: Query, order: seq<string>)
    requires forall key | key in order :: key in query
    ensures forall k, v :: (k, v) in Pairs(FiltersOf(query, order)) <==>
              k in order && FilterKey(k) && v in query[k] && v !in CONDITIONS
  {
    if order != [] {
      hide AddValues, Pairs;
      var front, last := order[..|order| - 1], order[|order| - 1];
      PairsOfKeys(query, front);
      assert forall k :: k in order <==> k in front || k == last;
      if FilterKey(last) { PairsOfValues(FiltersOf(query, front), last, query[last]); }
    } else {
      assert Pairs([]) == {};
    }
  }

  /** The filters of a request are exactly the values of its filter keys that are not condition words. */
  lemma FiltersComeFromTheQuery(query: Query, order: seq<string>, key: string, value: string)
    requires IsOrder(query, order)
    ensures (exists f :: f in Parsed(query, order).filters && f.key == key && f.value == value) <==>
            key in query && FilterKey(key) && value in query[key] && value !in CONDITIONS
  {
    hide FiltersOf, PositiveOr, AddSorts, FieldsOf;
    PairsOfKeys(query, order);
    var filters := FiltersOf(query, order);
    assert (exists f :: f in filters && f.key == key && f.value == value) <==> (key, value) in Pairs(filters);
  }

  /** Filters as values of their key: each value and then its condition. */
  function WrittenFilters(filters: seq<Filter>): seq<string> {
    if filters == [] then []
    else
      var last := filters[|filters| - 1];
      WrittenFilters(filters[..|filters| - 1]) + [last.value, last.condition]
  }

  predicate Writable(filters: seq<Filter>, key: string) {
    forall f | f in filters :: f.key == key && f.value !in CONDITIONS && f.condition in CONDITIONS
  }

  lemma {:induction false} FiltersReadBack(found: seq<Filter>, filters: seq<Filter>, key: string)
    requires Writable(filters, key)
    ensures AddValues(found, key, WrittenFilters(filters)) == found + filters
  {
    if filters != [] {
      var front, last := filters[..|filters| - 1], filters[|filters| - 1];
      assert last in filters && forall f | f in front :: f in filters;
      FiltersReadBack(found, front, key);
      TwoValues(found, key, WrittenFilters(front), last.value, last.condition);
      assert WrittenFilters(filters) == WrittenFilters(front) + [last.value, last.condition];
      assert found + front + [last] == found + filters;
    }
  }

  /** A value and a condition word make one filter; a value alone has `eq`. */
  lemma TwoValues(found: seq<Filter>, key: string, values: seq<string>, v: string, condition: string)
    requires v !in CONDITIONS && condition in CONDITIONS
    ensures AddValues(found, key, values + [v]) == AddValues(found, key, values) + [Filter(key, v, "eq")]
    ensures AddValues(found, key, values + [v, condition]) ==
            AddValues(found, key, values) + [Filter(key, v, condition)]
  {
    assert (values + [v])[..|values|] == values;
    assert (values + [v, condition])[..|values| + 1] == values + [v];
  }

  /** Sorts as values of `sort`: each field and then its direction. */
  function WrittenSorts(sorts: seq<Sort>): seq<string> {
    if sorts == [] then []
    else
      var last := sorts[|sorts| - 1];
      WrittenSorts(sorts[..|sorts| - 1]) + [last.field, last.arrange]
  }

  lemma {:induction false} SortsReadBack(sorts: seq<Sort>)
    requires forall s | s in sorts :: s.field !in {"asc", "desc"} && s.arrange in {"asc", "desc"}
    ensures AddSorts([], WrittenSorts(sorts)) == sorts
  {
    if sorts != [] {
      var front, last := sorts[..|sorts| - 1], sorts[|sorts| - 1];
      assert last in sorts && forall s | s in front :: s in sorts;
      SortsReadBack(front);
      TwoSorts(WrittenSorts(front), last.field, last.arrange);
      assert WrittenSorts(sorts) == WrittenSorts(front) + [last.field, last.arrange];
      assert front + [last] == sorts;
    }
  }

  /** A field and a direction make one sort; a field alone is descending. */
  lemma TwoSorts(values: seq<string>, field: string, arrange: string)
    requires field !in {"asc", "desc"} && arrange in {"asc", "desc"}
    ensures AddSorts([], values + [field]) == AddSorts([], values) + [Sort(field, "desc")]
    ensures AddSorts([], values + [field, arrange]) == AddSorts([], values) + [Sort(field, arrange)]
  {
    assert (values + [field])[..|values|] == values;
    assert (values + [field, arrange])[..|values| + 1] == values + [field];
  }

  // ---------- a whole request ----------

  /** The query of a page: its numbers, fields and sorts, and the filters of each key. */
  function Written(p: Page, blocks: map<string, seq<Filter>>): Query
    requires p.page > 0 && p.perPage > 0
  {
    (map key | key in blocks :: WrittenFilters(blocks[key]))
    + map["page" := [Natural(p.page)], "per_page" := [Natural(p.perPage)], "fields" := [Join(p.fields, ",")],
          "sort" := WrittenSorts(p.sort)]
  }

  lemma NaturalDenotes(n: nat)
    requires 1 <= n <= MAX_INT
    ensures Denotes(Natural(n), n)
  {
    assert Natural(n)[0..] == Natural(n);
  }

  lemma NumbersReadBack(p: Page, blocks: map<string, seq<Filter>>, order: seq<string>)
    requires 1 <= p.page <= MAX_INT && 1 <= p.perPage <= MAX_INT && IsOrder(Written(p, blocks), order)
    ensures Parsed(Written(p, blocks), order).page == p.page && Parsed(Written(p, blocks), order).perPage == p.perPage
  {
    hide Parsed, Denotes, Natural, WrittenFilters, WrittenSorts, Join;
    var query := Written(p, blocks);
    NumbersExactly(query, order);
    NaturalDenotes(p.page);
    NaturalDenotes(p.perPage);
    NumberExactly(Natural(p.page), 1);
    NumberExactly(Natural(p.perPage), 1);
  }

  lemma FieldsReadBack(p: Page, blocks: map<string, seq<Filter>>, order: seq<string>)
    requires p.page > 0 && p.perPage > 0 && IsOrder(Written(p, blocks), order)
    requires p.fields != [""] && forall f | f in p.fields :: ',' !in f
    ensures Parsed(Written(p, blocks), order).fields == p.fields
  {
    hide FiltersOf, AddSorts, PositiveOr, Natural, WrittenFilters, WrittenSorts, Split;
    if p.fields != [] {
      SplitJoin(p.fields, ',');
      SplitNone("", ',');
    }
  }

  lemma FirstOfWritten(filters: seq<Filter>)
    requires filters != []
    ensures WrittenFilters(filters) != [] && WrittenFilters(filters)[0] == filters[0].value
  {
    if |filters| > 1 { FirstOfWritten(filters[..|filters| - 1]); }
  }

  predicate WritableBlocks(blocks: map<string, seq<Filter>>) {
    forall k | k in blocks :: FilterKey(k) && Writable(blocks[k], k)
  }

  lemma WrittenIsHarmless(p: Page, blocks: map<string, seq<Filter>>)
    requires p.page > 0 && p.perPage > 0 && WritableBlocks(blocks)
    ensures Harmless(Written(p, blocks))
  {
    hide Natural, WrittenSorts, WrittenFilters, Join, Harmless;
    var query := Written(p, blocks);
    forall k | k in query && IsFilterKey(k) && query[k] != [] ensures !IsCondition(query[k][0]) {
      assert k in blocks && query[k] == WrittenFilters(blocks[k]);
      PlainStart(blocks[k], k);
    }
    PlainFirstValuesAreHarmless(query);
  }

  lemma PlainStart(filters: seq<Filter>, key: string)
    requires Writable(filters, key) && WrittenFilters(filters) != []
    ensures !IsCondition(WrittenFilters(filters)[0])
  {
    FirstOfWritten(filters);
    assert filters[0] in filters;
  }

  lemma WrittenBlock(p: Page, blocks: map<string, seq<Filter>>, key: string)
    requires p.page > 0 && p.perPage > 0 && WritableBlocks(blocks) && key in Written(p, blocks)
    ensures Block(Written(p, blocks), key) == if key in blocks then blocks[key] else []
  {
    hide Natural, WrittenSorts, WrittenFilters, Join;
    if key in blocks {
      FiltersReadBack([], blocks[key], key);
      assert [] + blocks[key] == blocks[key];
      assert Written(p, blocks)[key] == WrittenFilters(blocks[key]);
    }
  }

  lemma BlocksReadBack(p: Page, blocks: map<string, seq<Filter>>, order: seq<string>, key: string)
    requires p.page > 0 && p.perPage > 0 && IsOrder(Written(p, blocks), order) && WritableBlocks(blocks)
    ensures OfKey(Parsed(Written(p, blocks), order).filters, key) == if key in blocks then blocks[key] else []
  {
    hide PositiveOr, FieldsOf, AddSorts, FiltersOf, OfKey, Blocks, Block, Harmless, WritableBlocks;
    var query := Written(p, blocks);
    WrittenIsHarmless(p, blocks);
    HarmlessBlocks(query, order);
    BlocksByKey(query, order, key);
    if key in query { WrittenBlock(p, blocks, key); }
    hide Natural, WrittenSorts, WrittenFilters, Join;
  }

  /** A request written from its parts parses back to them, in every order of the keys. */
  lemma RequestReadsBack(p: Page, blocks: map<string, seq<Filter>>, order: seq<string>)
    requires 1 <= p.page <= MAX_INT && 1 <= p.perPage <= MAX_INT && IsOrder(Written(p, blocks), order)
    requires p.fields != [""] && forall f | f in p.fields :: ',' !in f
    requires forall s | s in p.sort :: s.field !in {"asc", "desc"} && s.arrange in {"asc", "desc"}
    requires WritableBlocks(blocks)
    ensures var r := Parsed(Written(p, blocks), order);
      && r.page == p.page && r.perPage == p.perPage && r.fields == p.fields && r.sort == p.sort
      && forall key :: OfKey(r.filters, key) == if key in blocks then blocks[key] else []
  {
    NumbersReadBack(p, blocks, order);
    FieldsReadBack(p, blocks, order);
    SortsReadBack(p.sort);
    forall key
      ensures OfKey(Parsed(Written(p, blocks), order).filters, key) == if key in blocks then blocks[key] else []
    {
      BlocksReadBack(p, blocks, order, key);
    }
    hide OfKey, FiltersOf, PositiveOr, FieldsOf, AddSorts, WrittenFilters, WrittenSorts, Natural, Join;
  }
}
