/**
  The list-request parser (pkg/paginate/paginate.go). Go iterates over the query map in
  an unspecified order, so the order of the keys is a parameter here; the lemmas say
  what of the result depends on it.
*/
module Pagination {
  import opened Strings

  const PAGE := "page"
  const PER_PAGE := "per_page"
  const SORT := "sort"
  const FIELDS := "fields"
  const EQ := "eq"
  const NEQ := "neq"
  const GT := "gt"
  const GTE := "gte"
  const LT := "lt"
  const LTE := "lte"
  const IN := "in"
  const BETWEEN := "between"
  const LIKE := "like"
  const ASC := "asc"
  const DESC := "desc"
  const DEFAULT_PER_PAGE := 10
  const MAX_INT := 0x7FFF_FFFF_FFFF_FFFF

  datatype Filter = Filter(key: string, value: string, condition: string)
  datatype Sort = Sort(field: string, arrange: string)
  datatype Page = Page(page: int, perPage: int, fields: seq<string>, sort: seq<Sort>, filters: seq<Filter>)

  /** `url.Values`. */
  type Query = map<string, seq<string>>

  predicate IsCondition(s: string) {
    s in {EQ, NEQ, GT, GTE, LT, LTE, IN, BETWEEN, LIKE}
  }

  predicate IsArrange(s: string) {
    s in {ASC, DESC}
  }

  /** The keys that the loop treats as filters. */
  predicate IsFilterKey(key: string) {
    ' ' !in key && ';' !in key && key !in {PAGE, PER_PAGE, FIELDS, SORT}
  }

  // ---------- numbers and fields ----------

  predicate IsDigits(s: string) {
    s != "" && forall c | c in s :: '0' <= c <= '9'
  }

  /** `strconv.Atoi` on 64-bit integers. */
  function Atoi(s: string): Option<int> {
    var signed := s != "" && s[0] in "+-";
    var digits := if signed then s[1..] else s;
    if !IsDigits(digits) then None
    else
      var n: int := if signed && s[0] == '-' then 0 - Value(digits) else Value(digits);
      if -MAX_INT - 1 <= n <= MAX_INT then Some(n) else None
  }

  /** `Values.Get`: the first value, or the empty string. */
  function First(query: Query, key: string): string {
    if key in query && query[key] != [] then query[key][0] else ""
  }

  function PositiveOr(s: string, default: int): int {
    match Atoi(s)
    case Some(n) => if n > 0 then n else default
    case None => default
  }

  function FieldsOf(query: Query): seq<string> {
    var f := First(query, FIELDS);
    if f == "" then [] else Split(f, ',')
  }

  // ---------- the loop over the values ----------

  /** One value of a filter key: a condition word changes the last filter, whatever its key. */
  function AddValue(filters: seq<Filter>, key: string, v: string): seq<Filter> {
    if IsCondition(v) then
      if filters == [] then filters
      else filters[|filters| - 1 := filters[|filters| - 1].(condition := v)]
    else filters + [Filter(key, v, EQ)]
  }

  function AddValues(filters: seq<Filter>, key: string, values: seq<string>): seq<Filter> {
    if values == [] then filters
    else AddValue(AddValues(filters, key, values[..|values| - 1]), key, values[|values| - 1])
  }

  function AddSort(sort: seq<Sort>, v: string): seq<Sort> {
    if IsArrange(v) then
      if sort == [] then sort
      else sort[|sort| - 1 := sort[|sort| - 1].(arrange := v)]
    else sort + [Sort(v, DESC)]
  }

  function AddSorts(sort: seq<Sort>, values: seq<string>): seq<Sort> {
    if values == [] then sort
    else AddSort(AddSorts(sort, values[..|values| - 1]), values[|values| - 1])
  }

  /** One round of the loop over the keys. */
  function AddKey(filters: seq<Filter>, query: Query, key: string): seq<Filter>
    requires key in query
  {
    if IsFilterKey(key) then AddValues(filters, key, query[key]) else filters
  }

  function FiltersOf(query: Query, order: seq<string>): seq<Filter>
    requires forall key | key in order :: key in query
  {
    if order == [] then []
    else AddKey(FiltersOf(query, order[..|order| - 1]), query, order[|order| - 1])
  }

  /** An iteration order of the map. */
  ghost predicate IsOrder(query: Query, order: seq<string>) {
    && (forall key :: key in order <==> key in query)
    && (forall i, j | 0 <= i < j < |order| :: order[i] != order[j])
  }

  ghost function Parsed(query: Query, order: seq<string>): Page
    requires IsOrder(query, order)
  {
    Page(if PAGE in query then PositiveOr(First(query, PAGE), 1) else 1,
         if PER_PAGE in query then PositiveOr(First(query, PER_PAGE), DEFAULT_PER_PAGE) else DEFAULT_PER_PAGE,
         FieldsOf(query),
         if SORT in query then AddSorts([], query[SORT]) else [],
         FiltersOf(query, order))
  }

  /** The loop over the values of `sort`. */
  method ParseSort(values: seq<string>) returns (sort: seq<Sort>)
    ensures sort == AddSorts([], values)
  {
    sort := [];
    for j := 0 to |values|
      invariant sort == AddSorts([], values[..j])
    {
      assert values[..j + 1][..j] == values[..j];
      if IsArrange(values[j]) {
        if |sort| > 0 { sort := sort[|sort| - 1 := sort[|sort| - 1].(arrange := values[j])]; }
      } else {
        sort := sort + [Sort(values[j], DESC)];
      }
    }
    assert values[..|values|] == values;
  }

  /** The loop over the values of a filter key, which goes on with the filters found so far. */
  method ParseFilters(found: seq<Filter>, key: string, values: seq<string>) returns (filters: seq<Filter>)
    ensures filters == AddValues(found, key, values)
  {
    filters := found;
    for j := 0 to |values|
      invariant filters == AddValues(found, key, values[..j])
    {
      assert values[..j + 1][..j] == values[..j];
      if IsCondition(values[j]) {
        if |filters| > 0 {
          filters := filters[|filters| - 1 := filters[|filters| - 1].(condition := values[j])];
        }
      } else {
        filters := filters + [Filter(key, values[j], EQ)];
      }
    }
    assert values[..|values|] == values;
  }

  /** `ParseFromRequest`, with the loop over the map running through `order`. */
  method ParseFromRequest(query: Query, order: seq<string>) returns (r: Page)
    requires IsOrder(query, order)
    ensures r == Parsed(query, order)
  {
    var page := 1;
    if PAGE in query {
      var n := Atoi(First(query, PAGE));
      if n.Some? && n.value > 0 { page := n.value; }
    }
    var perPage := DEFAULT_PER_PAGE;
    if PER_PAGE in query {
      var n := Atoi(First(query, PER_PAGE));
      if n.Some? && n.value > 0 { perPage := n.value; }
    }
    var fields: seq<string> := [];
    if First(query, FIELDS) != "" { fields := Split(First(query, FIELDS), ','); }
    var sort, filters := ParseKeys(query, order);
    return Page(page, perPage, fields, sort, filters);
  }

  /** The loop over the map. */
  method ParseKeys(query: Query, order: seq<string>) returns (sort: seq<Sort>, filters: seq<Filter>)
    requires IsOrder(query, order)
    ensures sort == if SORT in query then AddSorts([], query[SORT]) else []
    ensures filters == FiltersOf(query, order)
  {
    hide AddSorts, AddValues;
    sort, filters := [], [];
    for i := 0 to |order|
      invariant filters == FiltersOf(query, order[..i])
      invariant sort == if SORT in order[..i] then AddSorts([], query[SORT]) else []
    {
      var key := order[i];
      assert order[..i + 1] == order[..i] + [key] && order[..i + 1][..i] == order[..i];
      if ' ' in key || ';' in key { continue; }
      if key in {PAGE, PER_PAGE, FIELDS} { continue; }
      if key == SORT {
        sort := ParseSort(query[key]);
        continue;
      }
      filters := ParseFilters(filters, key, query[key]);
    }
    assert order[..|order|] == order;
  }

  // ---------- what every request gives ----------

  lemma {:induction false} SortsAreArranged(values: seq<string>)
    ensures forall s | s in AddSorts([], values) :: IsArrange(s.arrange) && s.field in values
  {
    if values != [] {
      var front := values[..|values| - 1];
      SortsAreArranged(front);
      assert forall v | v in front :: v in values;
      assert values[|values| - 1] in values;
    }
  }

  /** Page and page size are at least 1, and every sort is ascending or descending. */
  lemma EveryRequestIsBounded(query: Query, order: seq<string>)
    requires IsOrder(query, order)
    ensures var p := Parsed(query, order);
      && 1 <= p.page <= MAX_INT && 1 <= p.perPage <= MAX_INT
      && forall s | s in p.sort :: IsArrange(s.arrange)
  {
    if SORT in query { SortsAreArranged(query[SORT]); }
  }

  // ---------- the order of the keys ----------

  /** The filters of one key on its own. */
  function Block(query: Query, key: string): seq<Filter>
    requires key in query
  {
    AddKey([], query, key)
  }

  /** How many condition words stand in front of the first filter value. */
  function Leading(values: seq<string>): (n: nat)
    ensures n <= |values|
  {
    if values != [] && IsCondition(values[0]) then 1 + Leading(values[1..]) else 0
  }

  /** The key's values start with a condition word; the last of the leading words is the one that counts. */
  predicate Reaches(query: Query, key: string)
    requires key in query
  {
    IsFilterKey(key) && Leading(query[key]) > 0
  }

  function Word(query: Query, key: string): string
    requires key in query && Reaches(query, key)
  {
    query[key][Leading(query[key]) - 1]
  }

  /**
    No leading condition word changes a filter: wherever another key has filters, the
    last of them already has the condition that the word would give it.
  */
  ghost predicate Harmless(query: Query) {
    forall j, k | j in query && k in query && j != k && Reaches(query, k) && Block(query, j) != [] ::
      Block(query, j)[|Block(query, j)| - 1].condition == Word(query, k)
  }

  function WithCondition(filters: seq<Filter>, word: string): seq<Filter> {
    if filters == [] then filters
    else filters[|filters| - 1 := filters[|filters| - 1].(condition := word)]
  }

  /** Values behind the leading words build the same filters whatever stands in front of them. */
  lemma {:induction false} ValuesOnTop(filters: seq<Filter>, key: string, values: seq<string>)
    ensures AddValues(filters, key, values) ==
            (if Leading(values) > 0 then WithCondition(filters, values[Leading(values) - 1]) else filters)
            + AddValues([], key, values)
    ensures AddValues([], key, values) == [] <==> Leading(values) == |values|
  {
    hide IsCondition;
    if values != [] {
      var front, last := values[..|values| - 1], values[|values| - 1];
      ValuesOnTop(filters, key, front);
      LeadingOfFront(values);
      var base := if Leading(front) > 0 then WithCondition(filters, front[Leading(front) - 1]) else filters;
      var own := AddValues([], key, front);
      hide AddValues, Leading, WithCondition;
      if own == [] {
        assert base + own == base;
        WordOnTop(filters, base, key, last, front);
      } else {
        ValueOnTop(base, own, key, last);
      }
    }
  }

  /** A value behind own filters leaves what stands in front of them. */
  lemma ValueOnTop(base: seq<Filter>, own: seq<Filter>, key: string, v: string)
    requires own != []
    ensures AddValue(base + own, key, v) == base + AddValue(own, key, v)
    ensures AddValue(own, key, v) != []
  {
    hide IsCondition;
  }

  /** A value with no own filter in front of it. */
  lemma WordOnTop(filters: seq<Filter>, base: seq<Filter>, key: string, v: string, words: seq<string>)
    requires Leading(words) == |words|
    requires base == if words != [] then WithCondition(filters, words[|words| - 1]) else filters
    ensures AddValue(base, key, v) ==
            (if IsCondition(v) then WithCondition(filters, v) else base) + AddValue([], key, v)
    ensures AddValue([], key, v) == [] <==> IsCondition(v)
  {
    hide IsCondition, Leading;
  }

  lemma {:induction false} LeadingOfFront(values: seq<string>)
    requires values != []
    ensures var front := values[..|values| - 1];
      Leading(values) == if Leading(front) == |front| && IsCondition(values[|values| - 1]) then |values|
                         else Leading(front)
  {
    if |values| > 1 {
      assert values[1..][..|values| - 2] == values[..|values| - 1][1..];
      LeadingOfFront(values[1..]);
    }
  }

  lemma KeyOnTop(filters: seq<Filter>, query: Query, key: string)
    requires key in query
    ensures AddKey(filters, query, key) ==
            (if Reaches(query, key) then WithCondition(filters, Word(query, key)) else filters) + Block(query, key)
  {
    if IsFilterKey(key) {
      ValuesOnTop(filters, key, query[key]);
    } else {
      assert filters + [] == filters;
    }
  }

  // ---------- filters by key ----------

  /** The filters of this key, in order. */
  function OfKey(filters: seq<Filter>, key: string): seq<Filter> {
    if filters == [] then []
    else
      var front, last := filters[..|filters| - 1], filters[|filters| - 1];
      OfKey(front, key) + if last.key == key then [last] else []
  }

  lemma {:induction false} OfKeyConcat(a: seq<Filter>, b: seq<Filter>, key: string)
    ensures OfKey(a + b, key) == OfKey(a, key) + OfKey(b, key)
  {
    if b == [] {
      assert a + b == a;
    } else {
      assert (a + b)[..|a + b| - 1] == a + b[..|b| - 1];
      OfKeyConcat(a, b[..|b| - 1], key);
    }
  }

  lemma {:induction false} OfKeyCount(filters: seq<Filter>, key: string, f: Filter)
    ensures multiset(OfKey(filters, key))[f] == if f.key == key then multiset(filters)[f] else 0
  {
    if filters != [] {
      var front, last := filters[..|filters| - 1], filters[|filters| - 1];
      OfKeyCount(front, key, f);
      assert filters == front + [last];
    }
  }

  lemma {:induction false} BlockKeys(key: string, values: seq<string>)
    ensures forall f | f in AddValues([], key, values) :: f.key == key
    ensures OfKey(AddValues([], key, values), key) == AddValues([], key, values)
    ensures forall other | other != key :: OfKey(AddValues([], key, values), other) == []
  {
    if values != [] {
      var front, last := values[..|values| - 1], values[|values| - 1];
      BlockKeys(key, front);
      var own := AddValues([], key, front);
      if !IsCondition(last) {
        assert (own + [Filter(key, last, EQ)])[..|own|] == own;
      } else if own != [] {
        var init, f := own[..|own| - 1], own[|own| - 1];
        var own' := own[|own| - 1 := f.(condition := last)];
        assert own == init + [f] && own' == init + [f.(condition := last)];
        assert own'[..|own| - 1] == init;
        forall other | other != key ensures OfKey(own', other) == [] {
          assert OfKey(own, other) == [] && f.key == key;
        }
      }
    }
  }

  // ---------- orders ----------

  /** The blocks of the keys one after another. */
  function Blocks(query: Query, order: seq<string>): seq<Filter>
    requires forall key | key in order :: key in query
  {
    if order == [] then []
    else Blocks(query, order[..|order| - 1]) + Block(query, order[|order| - 1])
  }

  /** The last filter of the blocks is the last of some key's block. */
  lemma {:induction false} LastOfBlocks(query: Query, order: seq<string>) returns (j: string)
    requires forall key | key in order :: key in query
    requires Blocks(query, order) != []
    ensures j in order && Block(query, j) != []
    ensures Blocks(query, order)[|Blocks(query, order)| - 1] == Block(query, j)[|Block(query, j)| - 1]
  {
    hide AddKey;
    j := order[|order| - 1];
    if Block(query, j) == [] {
      assert Blocks(query, order) == Blocks(query, order[..|order| - 1]);
      j := LastOfBlocks(query, order[..|order| - 1]);
    }
  }

  /** When no leading word changes a filter, the filters are the blocks one after another. */
  lemma {:induction false} HarmlessBlocks(query: Query, order: seq<string>)
    requires Harmless(query)
    requires forall key | key in order :: key in query
    requires forall i, j | 0 <= i < j < |order| :: order[i] != order[j]
    ensures FiltersOf(query, order) == Blocks(query, order)
  {
    hide AddKey, Block, Reaches, Word, Harmless, WithCondition;
    if order != [] {
      var front, key := order[..|order| - 1], order[|order| - 1];
      HarmlessBlocks(query, front);
      KeyOnTop(FiltersOf(query, front), query, key);
      HarmlessKey(query, front, key);
    }
  }

  /** The leading word of a later key finds its condition already there. */
  lemma HarmlessKey(query: Query, front: seq<string>, key: string)
    requires Harmless(query) && key in query && key !in front
    requires forall k | k in front :: k in query
    ensures Reaches(query, key) ==> WithCondition(Blocks(query, front), Word(query, key)) == Blocks(query, front)
  {
    hide AddKey, Block, Blocks, Reaches, Word;
    if Reaches(query, key) && Blocks(query, front) != [] {
      var j := LastOfBlocks(query, front);
    }
  }

  lemma BlockOfKey(query: Query, key: string, other: string)
    requires key in query
    ensures OfKey(Block(query, key), other) == if other == key then Block(query, key) else []
  {
    BlockKeys(key, query[key]);
  }

  lemma {:induction false} BlocksByKey(query: Query, order: seq<string>, key: string)
    requires forall k | k in order :: k in query
    requires forall i, j | 0 <= i < j < |order| :: order[i] != order[j]
    ensures OfKey(Blocks(query, order), key) == if key in order then Block(query, key) else []
  {
    hide AddKey, Block;
    if order != [] {
      var front, last := order[..|order| - 1], order[|order| - 1];
      BlocksByKey(query, front, key);
      OfKeyConcat(Blocks(query, front), Block(query, last), key);
      BlockOfKey(query, last, key);
      assert order == front + [last];
    }
  }

  /** A permutation that keeps the filters of each key in order. */
  ghost predicate SameFilters(a: seq<Filter>, b: seq<Filter>) {
    multiset(a) == multiset(b) && forall key :: OfKey(a, key) == OfKey(b, key)
  }

  lemma SameByKey(a: seq<Filter>, b: seq<Filter>)
    requires forall key :: OfKey(a, key) == OfKey(b, key)
    ensures SameFilters(a, b)
  {
    forall f: Filter ensures multiset(a)[f] == multiset(b)[f] {
      OfKeyCount(a, f.key, f);
      OfKeyCount(b, f.key, f);
    }
  }

  lemma HarmlessOrders(query: Query, a: seq<string>, b: seq<string>)
    requires Harmless(query) && IsOrder(query, a) && IsOrder(query, b)
    ensures SameFilters(FiltersOf(query, a), FiltersOf(query, b))
  {
    hide Harmless, Block;
    HarmlessBlocks(query, a);
    HarmlessBlocks(query, b);
    forall key ensures OfKey(Blocks(query, a), key) == OfKey(Blocks(query, b), key) {
      BlocksByKey(query, a, key);
      BlocksByKey(query, b, key);
    }
    SameByKey(FiltersOf(query, a), FiltersOf(query, b));
  }

  // ---------- a word that reaches another key's filter ----------

  lemma {:induction false} KeysToOrder(keys: set<string>) returns (order: seq<string>)
    ensures forall key :: key in order <==> key in keys
    ensures forall i, j | 0 <= i < j < |order| :: order[i] != order[j]
  {
    if keys == {} {
      order := [];
    } else {
      var key :| key in keys;
      var rest := KeysToOrder(keys - {key});
      order := rest + [key];
    }
  }

  lemma WithConditionOfKey(filters: seq<Filter>, word: string, key: string)
    ensures OfKey(filters, key) == [] ==> OfKey(WithCondition(filters, word), key) == []
  {
    if filters != [] {
      var w := WithCondition(filters, word);
      assert w[..|w| - 1] == filters[..|filters| - 1];
    }
  }

  /** Only keys of the order have filters. */
  lemma {:induction false} FiltersHaveKeys(query: Query, order: seq<string>, key: string)
    requires forall k | k in order :: k in query
    requires key !in order
    ensures OfKey(FiltersOf(query, order), key) == []
  {
    hide AddKey, Block, Reaches, Word;
    if order != [] {
      var front, last := order[..|order| - 1], order[|order| - 1];
      assert order == front + [last];
      FiltersHaveKeys(query, front, key);
      KeyOnTop(FiltersOf(query, front), query, last);
      var base := if Reaches(query, last) then WithCondition(FiltersOf(query, front), Word(query, last))
                  else FiltersOf(query, front);
      if Reaches(query, last) { WithConditionOfKey(FiltersOf(query, front), Word(query, last), key); }
      OfKeyConcat(base, Block(query, last), key);
      BlockOfKey(query, last, key);
    }
  }

  /** What follows an order without `j` when `j` comes last. */
  lemma KeyLast(query: Query, order: seq<string>, j: string)
    requires (forall k | k in order :: k in query) && j in query && j !in order
    ensures OfKey(FiltersOf(query, order + [j]), j) == Block(query, j)
    ensures exists base :: FiltersOf(query, order + [j]) == base + Block(query, j) && OfKey(base, j) == []
  {
    hide AddKey, Block, Reaches, Word;
    assert (order + [j])[..|order|] == order;
    var filters := FiltersOf(query, order);
    KeyOnTop(filters, query, j);
    FiltersHaveKeys(query, order, j);
    var base := if Reaches(query, j) then WithCondition(filters, Word(query, j)) else filters;
    if Reaches(query, j) { WithConditionOfKey(filters, Word(query, j), j); }
    OfKeyConcat(base, Block(query, j), j);
    BlockOfKey(query, j, j);
  }

  /** When `k` with a leading word comes right behind `j`, the last filter of `j` gets that word. */
  lemma KeyBehind(query: Query, order: seq<string>, j: string, k: string)
    requires (forall x | x in order :: x in query) && j in query && k in query && j !in order && j != k
    requires Reaches(query, k) && Block(query, j) != []
    ensures OfKey(FiltersOf(query, order + [j] + [k]), j) == WithCondition(Block(query, j), Word(query, k))
  {
    hide AddKey, Block, Reaches, Word, WithCondition, OfKey;
    KeyLast(query, order, j);
    var filters := FiltersOf(query, order + [j]);
    var base :| filters == base + Block(query, j) && OfKey(base, j) == [];
    var own := WithCondition(Block(query, j), Word(query, k));
    assert (order + [j] + [k])[..|order| + 1] == order + [j];
    assert FiltersOf(query, order + [j] + [k]) == AddKey(filters, query, k);
    hide FiltersOf;
    KeyOnTop(filters, query, k);
    ConditionOnTop(base, Block(query, j), Word(query, k));
    OfKeyConcat(base + own, Block(query, k), j);
    OfKeyConcat(base, own, j);
    BlockOfKey(query, k, j);
    OwnKeys(query, j, Word(query, k));
  }

  lemma ConditionOnTop(base: seq<Filter>, own: seq<Filter>, word: string)
    requires own != []
    ensures WithCondition(base + own, word) == base + WithCondition(own, word)
  {
  }

  lemma OwnKeys(query: Query, j: string, word: string)
    requires j in query && Block(query, j) != []
    ensures OfKey(WithCondition(Block(query, j), word), j) == WithCondition(Block(query, j), word)
  {
    hide AddKey;
    var b := Block(query, j);
    BlockOfKey(query, j, j);
    var init, last := b[..|b| - 1], b[|b| - 1];
    OfKeyShort(init, j);
    assert OfKey(b, j) == OfKey(init, j) + if last.key == j then [last] else [];
    assert last.key == j && OfKey(init, j) == init;
    var w := WithCondition(b, word);
    assert w[..|w| - 1] == init && w == init + [last.(condition := word)];
  }

  lemma {:induction false} OfKeyShort(filters: seq<Filter>, key: string)
    ensures |OfKey(filters, key)| <= |filters|
    ensures |OfKey(filters, key)| == |filters| ==> OfKey(filters, key) == filters
  {
    if filters != [] {
      OfKeyShort(filters[..|filters| - 1], key);
      assert filters == filters[..|filters| - 1] + [filters[|filters| - 1]];
    }
  }

  lemma HarmfulOrders(query: Query) returns (a: seq<string>, b: seq<string>)
    requires !Harmless(query)
    ensures IsOrder(query, a) && IsOrder(query, b)
    ensures multiset(FiltersOf(query, a)) != multiset(FiltersOf(query, b))
  {
    var j, k :| j in query && k in query && j != k && Reaches(query, k) && Block(query, j) != [] &&
      Block(query, j)[|Block(query, j)| - 1].condition != Word(query, k);
    hide Harmless, AddKey, Block, Reaches, Word, FiltersOf, OfKey, WithCondition;
    var rest := KeysToOrder(query.Keys - {j, k});
    a, b := rest + [j] + [k], rest + [k] + [j];
    TwoMore(query, rest, j, k);
    TwoMore(query, rest, k, j);
    hide IsOrder;
    KeyBehind(query, rest, j, k);
    KeyLast(query, rest + [k], j);
    var own, changed := Block(query, j), WithCondition(Block(query, j), Word(query, k));
    LastChanged(own, Word(query, k));
    var f :| multiset(own)[f] != multiset(changed)[f];
    OfKeyCount(FiltersOf(query, a), j, f);
    OfKeyCount(FiltersOf(query, b), j, f);
  }

  lemma TwoMore(query: Query, rest: seq<string>, j: string, k: string)
    requires j in query && k in query && j != k
    requires forall key :: key in rest <==> key in query.Keys - {j, k}
    requires forall m, n | 0 <= m < n < |rest| :: rest[m] != rest[n]
    ensures IsOrder(query, rest + [j] + [k])
  {
    var order := rest + [j] + [k];
    forall key ensures key in order <==> key in query {
      if key == j { assert order[|rest|] == j; }
      if key == k { assert order[|rest| + 1] == k; }
      if key in rest { assert key in order; }
    }
    forall m, n | 0 <= m < n < |order| ensures order[m] != order[n] {
      if m < |rest| { assert order[m] == rest[m] && rest[m] in rest; }
      if n < |rest| { assert order[n] == rest[n]; }
    }
  }

  lemma LastChanged(b: seq<Filter>, word: string)
    requires b != [] && b[|b| - 1].condition != word
    ensures exists f :: multiset(b)[f] != multiset(WithCondition(b, word))[f]
  {
    var init, last := b[..|b| - 1], b[|b| - 1];
    assert b == init + [last];
    assert WithCondition(b, word) == init + [last.(condition := word)];
    assert multiset(b)[last] == multiset(init)[last] + 1;
    assert multiset(WithCondition(b, word))[last] == multiset(init)[last];
  }

  /**
    Any two iteration orders of the query map give the same filters up to a permutation
    that keeps the order per key, if and only if no key's leading condition word gives
    another key's last filter a condition that it does not have.
  */
  lemma OrderIsIrrelevantExactly(query: Query)
    ensures Harmless(query) <==>
            forall a, b | IsOrder(query, a) && IsOrder(query, b) ::
              SameFilters(FiltersOf(query, a), FiltersOf(query, b))
  {
    if Harmless(query) {
      forall a, b | IsOrder(query, a) && IsOrder(query, b)
        ensures SameFilters(FiltersOf(query, a), FiltersOf(query, b))
      {
        HarmlessOrders(query, a, b);
      }
    } else {
      hide Harmless;
      var a, b := HarmfulOrders(query);
      assert !SameFilters(FiltersOf(query, a), FiltersOf(query, b));
    }
  }

  /** No filter key starts with a condition word: then the order is irrelevant. */
  lemma PlainFirstValuesAreHarmless(query: Query)
    requires forall key | key in query && IsFilterKey(key) && query[key] != [] :: !IsCondition(query[key][0])
    ensures Harmless(query)
  {
  }

  /** `a=1&b=gt`: the word reaches the filter of `a` when `b` is visited second. */
  lemma WordsCanReachOtherKeys()
    ensures var query := map["a" := ["1"], "b" := [GT]];
      && !Harmless(query)
      && FiltersOf(query, ["a", "b"]) == [Filter("a", "1", GT)]
      && FiltersOf(query, ["b", "a"]) == [Filter("a", "1", EQ)]
  {
    var query := map["a" := ["1"], "b" := [GT]];
    assert ["a", "b"][..1] == ["a"] && ["b", "a"][..1] == ["b"] && ["a"][..0] == [] && ["b"][..0] == [];
    assert ["1"][..0] == [] && [GT][..0] == [];
    assert AddValues([], "a", ["1"]) == [Filter("a", "1", EQ)];
    assert AddValues([], "b", [GT]) == AddValue([], "b", GT) == [];
    assert AddValues([Filter("a", "1", EQ)], "b", [GT]) == AddValue([Filter("a", "1", EQ)], "b", GT);
    assert FiltersOf(query, ["a"]) == AddKey([], query, "a") == [Filter("a", "1", EQ)];
    assert FiltersOf(query, ["b"]) == AddKey([], query, "b") == [];
    assert Leading([GT]) == 1;
    assert Reaches(query, "b") && Word(query, "b") == GT && Block(query, "a") == [Filter("a", "1", EQ)];
  }
}
