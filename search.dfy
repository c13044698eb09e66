/** The `/search` handler's query builder: it starts from a fixed SELECT,
    appends one condition per non-blank filter with a numbered placeholder,
    pushes the matching parameter, and closes with the ordering. */
module Search {
  import opened Wrappers
  import opened JsText
  import opened SqlPlaceholders

  /** The template literal the handler starts from, in pieces short
      enough to reason about one at a time. */
  const SelectClause := "\n      SELECT jokes.*, "
  const SelectColumns := "categories.name AS category\n"
  const FromClause := "      FROM jokes\n"
  const JoinClause := "      LEFT JOIN categories "
  const JoinCondition := "ON jokes.category_id = categories.id\n"
  const WhereClause := "      WHERE 1=1\n    "
  const BaseQuery := SelectClause + SelectColumns + FromClause + JoinClause + JoinCondition + WhereClause
  const OrderBy := " ORDER BY jokes.id DESC"

  /** The filters the handler can apply, with the value each binds. */
  datatype Filter = Keyword(term: string) | InCategory(name: string)

  /** The condition text of a filter, up to its placeholder. */
  function ConditionText(f: Filter): string {
    match f
    case Keyword(_) => " AND jokes.joke ILIKE "
    case InCategory(_) => " AND categories.name = "
  }

  /** `$${idx}`. */
  function Placeholder(n: nat): string {
    "$" + Decimal(n)
  }

  /** The condition appended for a filter numbered `n`. */
  function Condition(f: Filter, n: nat): string {
    ConditionText(f) + Placeholder(n)
  }

  /** The parameter pushed for a filter: the keyword wrapped in `%` for a
      substring match (neither trimmed nor escaped), the category as is. */
  function Parameter(f: Filter): string {
    match f
    case Keyword(term) => "%" + term + "%"
    case InCategory(name) => name
  }

  /** The conditions of `fs`, numbered from `first` on, each appended
      after those before it. */
  function Conditions(fs: seq<Filter>, first: nat): string
    decreases |fs|
  {
    if fs == [] then [] else Conditions(fs[..|fs| - 1], first) + Condition(fs[|fs| - 1], first + |fs| - 1)
  }

  /** The parameters of `fs`, each pushed after those before it. */
  function Parameters(fs: seq<Filter>): seq<string>
    decreases |fs|
  {
    if fs == [] then [] else Parameters(fs[..|fs| - 1]) + [Parameter(fs[|fs| - 1])]
  }

  /** The i-th parameter is the one the i-th filter binds. */
  lemma {:induction false} ParametersInOrder(fs: seq<Filter>)
    ensures |Parameters(fs)| == |fs|
    ensures forall i :: 0 <= i < |fs| ==> Parameters(fs)[i] == Parameter(fs[i])
    decreases |fs|
  {
    if fs != [] {
      ParametersInOrder(fs[..|fs| - 1]);
    }
  }

  /** The keyword filter, when `q` is not blank. */
  function KeywordFilter(q: Option<string>): seq<Filter> {
    if NonBlank(q) then [Keyword(q.value)] else []
  }

  /** The category filter, when `category` is not blank. */
  function CategoryFilter(category: Option<string>): seq<Filter> {
    if NonBlank(category) then [InCategory(category.value)] else []
  }

  /** The filters a request applies, in the order the handler tests them. */
  function Filters(q: Option<string>, category: Option<string>): seq<Filter> {
    KeywordFilter(q) + CategoryFilter(category)
  }

  /** The keyword filter comes first and is applied exactly when `q` is not
      blank; the category filter comes last and is applied exactly when
      `category` is not blank; nothing else is applied. */
  lemma FiltersApplied(q: Option<string>, category: Option<string>)
    ensures var fs := Filters(q, category);
      && |fs| == (if NonBlank(q) then 1 else 0) + (if NonBlank(category) then 1 else 0)
      && (NonBlank(q) <==> |fs| > 0 && fs[0].Keyword?)
      && (NonBlank(q) ==> fs[0] == Keyword(q.value))
      && (NonBlank(category) <==> |fs| > 0 && fs[|fs| - 1].InCategory?)
      && (NonBlank(category) ==> fs[|fs| - 1] == InCategory(category.value))
  {
  }

  function SearchQuery(q: Option<string>, category: Option<string>): string {
    BaseQuery + Conditions(Filters(q, category), 1) + OrderBy
  }

  function SearchParams(q: Option<string>, category: Option<string>): seq<string> {
    Parameters(Filters(q, category))
  }

  // ---------------------------------------------------------------
  // Placeholders and parameters

  /** Conditions are empty exactly when no filter applies, and otherwise
      start with the space that separates them from the text before. */
  lemma {:induction false} ConditionsShape(fs: seq<Filter>, first: nat)
    ensures Conditions(fs, first) == [] <==> fs == []
    ensures fs != [] ==> Conditions(fs, first)[0] == ' '
    decreases |fs|
  {
    if fs != [] {
      ConditionsShape(fs[..|fs| - 1], first);
    }
  }

  lemma PlaceholderReadsBack(n: nat)
    ensures Placeholders(Placeholder(n)) == [n]
  {
    DecimalReadsBack(n);
    DollarDigits(Decimal(n));
  }

  lemma KeywordTextHasNoDollar()
    ensures '$' !in ConditionText(Keyword([]))
  {
  }

  lemma CategoryTextHasNoDollar()
    ensures '$' !in ConditionText(InCategory([]))
  {
  }

  lemma ConditionTextHasNoDollar(f: Filter)
    ensures '$' !in ConditionText(f)
  {
    if f.Keyword? {
      KeywordTextHasNoDollar();
      assert ConditionText(f) == ConditionText(Keyword([]));
    } else {
      CategoryTextHasNoDollar();
      assert ConditionText(f) == ConditionText(InCategory([]));
    }
  }

  /** A condition starts with a space and holds exactly its own
      placeholder. */
  lemma ConditionPlaceholder(f: Filter, n: nat)
    ensures Condition(f, n)[0] == ' '
    ensures Placeholders(Condition(f, n)) == [n]
  {
    ConditionTextHasNoDollar(f);
    NoDollarNoPlaceholders(ConditionText(f));
    PlaceholderReadsBack(n);
    PlaceholdersAppend(ConditionText(f), Placeholder(n));
  }

  lemma {:induction false} ConditionsPlaceholders(fs: seq<Filter>, first: nat)
    ensures Placeholders(Conditions(fs, first)) == Range(first, |fs|)
    decreases |fs|
  {
    if fs != [] {
      var init, last := fs[..|fs| - 1], fs[|fs| - 1];
      var n := first + |fs| - 1;
      ConditionsPlaceholders(init, first);
      ConditionPlaceholder(last, n);
      PlaceholdersAppend(Conditions(init, first), Condition(last, n));
    }
  }

  /** Text without `$` around a middle part that starts with a space adds
      no placeholder. */
  lemma PlaceholdersBetween(front: string, middle: string, back: string)
    requires '$' !in front && '$' !in back
    requires middle == [] || middle[0] == ' '
    requires back == [] || back[0] == ' '
    ensures Placeholders(front + middle + back) == Placeholders(middle)
  {
    NoDollarNoPlaceholders(front);
    NoDollarNoPlaceholders(back);
    PlaceholdersAppend(front, middle);
    PlaceholdersAppend(front + middle, back);
  }

  lemma SelectColumnsHaveNoDollar()
    ensures '$' !in SelectColumns
  {
  }

  lemma JoinConditionHasNoDollar()
    ensures '$' !in JoinCondition
  {
  }

  lemma BaseQueryHasNoDollar()
    ensures '$' !in BaseQuery
  {
    SelectColumnsHaveNoDollar();
    JoinConditionHasNoDollar();
    assert '$' !in SelectClause && '$' !in FromClause && '$' !in JoinClause && '$' !in WhereClause;
  }

  /** Placeholders and parameters stay in step: the placeholders of the
      SQL text are exactly `$1 .. $n`, in order, where n is the number of
      parameters. */
  lemma SearchPlaceholdersMatchParams(q: Option<string>, category: Option<string>)
    ensures Placeholders(SearchQuery(q, category)) == Range(1, |SearchParams(q, category)|)
  {
    var fs := Filters(q, category);
    BaseQueryHasNoDollar();
    assert '$' !in OrderBy && OrderBy[0] == ' ';
    ConditionsShape(fs, 1);
    PlaceholdersBetween(BaseQuery, Conditions(fs, 1), OrderBy);
    ConditionsPlaceholders(fs, 1);
    ParametersInOrder(fs);
  }

  // ---------------------------------------------------------------
  // The text does not depend on the values

  /** Two filter lists that apply the same kinds of filter in the same
      order. */
  predicate SameKinds(fs1: seq<Filter>, fs2: seq<Filter>) {
    |fs1| == |fs2| && forall i :: 0 <= i < |fs1| ==> fs1[i].Keyword? == fs2[i].Keyword?
  }

  lemma ConditionIgnoresValue(f1: Filter, f2: Filter, n: nat)
    requires f1.Keyword? == f2.Keyword?
    ensures Condition(f1, n) == Condition(f2, n)
  {
    assert ConditionText(f1) == ConditionText(f2);
  }

  lemma {:induction false} ConditionsIgnoreValues(fs1: seq<Filter>, fs2: seq<Filter>, first: nat)
    requires SameKinds(fs1, fs2)
    ensures Conditions(fs1, first) == Conditions(fs2, first)
    decreases |fs1|
  {
    if fs1 != [] {
      var k := |fs1| - 1;
      SameKindsPrefix(fs1, fs2, k);
      ConditionsIgnoreValues(fs1[..k], fs2[..k], first);
      ConditionIgnoresValue(fs1[k], fs2[k], first + k);
      ConditionsLast(fs1, first);
      ConditionsLast(fs2, first);
    }
  }

  lemma SameKindsPrefix(fs1: seq<Filter>, fs2: seq<Filter>, k: nat)
    requires SameKinds(fs1, fs2) && k <= |fs1|
    ensures SameKinds(fs1[..k], fs2[..k])
  {
    forall i | 0 <= i < k ensures fs1[..k][i].Keyword? == fs2[..k][i].Keyword? {
      assert fs1[..k][i] == fs1[i] && fs2[..k][i] == fs2[i];
    }
  }

  lemma ConditionsLast(fs: seq<Filter>, first: nat)
    requires fs != []
    ensures Conditions(fs, first) == Conditions(fs[..|fs| - 1], first) + Condition(fs[|fs| - 1], first + |fs| - 1)
  {
  }

  /** The SQL text depends on the request only through which filters are
      blank: the keyword and the category reach the database as parameters,
      never as text. */
  lemma SearchQueryIgnoresFilterValues(q1: Option<string>, category1: Option<string>, q2: Option<string>, category2: Option<string>)
    requires NonBlank(q1) == NonBlank(q2) && NonBlank(category1) == NonBlank(category2)
    ensures SearchQuery(q1, category1) == SearchQuery(q2, category2)
  {
    var fs1, fs2 := Filters(q1, category1), Filters(q2, category2);
    FiltersApplied(q1, category1);
    FiltersApplied(q2, category2);
    assert SameKinds(fs1, fs2) by {
      assert |fs1| == |fs2|;
      forall i | 0 <= i < |fs1| ensures fs1[i].Keyword? == fs2[i].Keyword? {
        if i == 0 && NonBlank(q1) {
        } else {
          assert fs1[i].InCategory? && fs2[i].InCategory?;
        }
      }
    }
    ConditionsIgnoreValues(fs1, fs2, 1);
  }

  // ---------------------------------------------------------------
  // The handler, step by step

  /** Before any filter, the query is the base text. */
  lemma NothingApplied(base: string)
    ensures base == base + Conditions([], 1)
    ensures [] == Parameters([])
  {
    assert base + [] == base;
  }

  lemma AppendAssoc(a: string, b: string, c: string)
    ensures a + (b + c) == a + b + c
  {
  }

  /** One step of the builder keeps the query in step with the filters
      applied so far. */
  lemma QueryStep(query: string, base: string, applied: seq<Filter>, f: Filter, idx: nat)
    requires query == base + Conditions(applied, 1) && idx == |applied| + 1
    ensures query + Condition(f, idx) == base + Conditions(applied + [f], 1)
  {
    var grown := applied + [f];
    assert grown[..|grown| - 1] == applied && grown[|grown| - 1] == f;
    assert Conditions(grown, 1) == Conditions(applied, 1) + Condition(f, idx);
    AppendAssoc(base, Conditions(applied, 1), Condition(f, idx));
  }

  /** One step of the builder keeps the parameters in step with the
      filters applied so far. */
  lemma ParamStep(params: seq<string>, applied: seq<Filter>, f: Filter)
    requires params == Parameters(applied)
    ensures params + [Parameter(f)] == Parameters(applied + [f])
  {
    var grown := applied + [f];
    assert grown[..|applied|] == applied && grown[|applied|] == f;
  }

  /** The handler's lines that build the query: grow the query, the
      parameter list and the placeholder counter one filter at a time. */
  method BuildSearch(q: Option<string>, category: Option<string>) returns (query: string, params: seq<string>)
    ensures query == SearchQuery(q, category) && params == SearchParams(q, category)
  {
    query := BaseQuery;
    params := [];
    var idx := 1;
    ghost var applied: seq<Filter> := [];
    NothingApplied(BaseQuery);

    if NonBlank(q) {
      QueryStep(query, BaseQuery, applied, Keyword(q.value), idx);
      ParamStep(params, applied, Keyword(q.value));
      query := query + Condition(Keyword(q.value), idx);
      params := params + ["%" + q.value + "%"];
      idx := idx + 1;
      applied := applied + [Keyword(q.value)];
    }
    assert applied == KeywordFilter(q) && idx == |applied| + 1;
    assert query == BaseQuery + Conditions(applied, 1) && params == Parameters(applied);

    if NonBlank(category) {
      QueryStep(query, BaseQuery, applied, InCategory(category.value), idx);
      ParamStep(params, applied, InCategory(category.value));
      query := query + Condition(InCategory(category.value), idx);
      params := params + [category.value];
      idx := idx + 1;
      applied := applied + [InCategory(category.value)];
    } else {
      assert applied + CategoryFilter(category) == applied;
    }
    assert applied == Filters(q, category);
    assert query == BaseQuery + Conditions(applied, 1) && params == Parameters(applied);

    query := query + OrderBy;
  }

  /** The query is the base text, then the conditions, then the ordering. */
  lemma SearchQueryFramed(q: Option<string>, category: Option<string>)
    ensures var s := SearchQuery(q, category);
      |s| >= |BaseQuery| + |OrderBy| && s[..|BaseQuery|] == BaseQuery && s[|s| - |OrderBy|..] == OrderBy
  {
    var middle := Conditions(Filters(q, category), 1);
    assert SearchQuery(q, category) == BaseQuery + middle + OrderBy;
    Framed(BaseQuery, middle, OrderBy);
  }

  lemma Framed(front: string, middle: string, back: string)
    ensures var s := front + middle + back;
      |s| >= |front| + |back| && s[..|front|] == front && s[|s| - |back|..] == back
  {
  }
}
