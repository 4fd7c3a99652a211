/**
 * The experiment query of src/hooks/useExperiments.ts: which server-side
 * clauses `queryFn` adds for the given filters, and the client-side tag
 * filter it applies to the rows the server returns.
 */
module Experiments {
  import opened Wrappers

  /** A row of the `experiments` table, with the columns the model reads. */
  datatype Experiment = Experiment(
    id: string,
    title: string,
    hypothesis: string,
    domain: string,
    status: string,
    /** `tags` is a nullable text array. */
    tags: Option<seq<string>>,
    /** `metrics` is nullable JSON; its entries in order, values as `String(value)` shows them. */
    metrics: Option<seq<(string, string)>>)

  /** `UseExperimentsFilters`: every field is optional. */
  datatype Filters = Filters(domain: Option<string>, status: Option<string>, search: Option<string>, tags: Option<seq<string>>)

  /** One call on the query builder. */
  datatype Clause =
    | Eq(column: string, value: string)   // `.eq(column, value)`
    | Or(pattern: string)                 // `.or(pattern)`
    | OrderDesc(column: string)           // `.order(column, { ascending: false })`

  /** `filters?.x` is truthy: present and not the empty string. */
  predicate Truthy(v: Option<string>)
  {
    v.Some? && v.value != ""
  }

  /** The guard for domain and status: truthy and not the "all" option. */
  predicate Selects(v: Option<string>)
  {
    Truthy(v) && v.value != "all"
  }

  function Field(filters: Option<Filters>, column: string): Option<string>
  {
    if filters.None? then None
    else if column == "domain" then filters.value.domain
    else if column == "status" then filters.value.status
    else None
  }

  function Search(filters: Option<Filters>): Option<string>
  {
    if filters.None? then None else filters.value.search
  }

  /** The `.or` argument matching `search` in the title or the hypothesis. */
  function SearchPattern(search: string): string
  {
    "title.ilike.%" + search + "%,hypothesis.ilike.%" + search + "%"
  }

  /** The values an equality clause on `column` asks for. */
  function EqValues(query: seq<Clause>, column: string): set<string>
  {
    set c | c in query && c.Eq? && c.column == column :: c.value
  }

  /** The patterns of the `.or` clauses. */
  function OrPatterns(query: seq<Clause>): set<string>
  {
    set c | c in query && c.Or? :: c.pattern
  }

  /** The values a filter asks an equality for: its value when it is selected, none otherwise. */
  function EqFor(filters: Option<Filters>, column: string): set<string>
  {
    if Selects(Field(filters, column)) then {Field(filters, column).value} else {}
  }

  /** The equality clause a filter value adds, if any. */
  function EqClause(filters: Option<Filters>, column: string): seq<Clause>
  {
    if Selects(Field(filters, column)) then [Eq(column, Field(filters, column).value)] else []
  }

  /** The text-match clause the search adds, if any. */
  function SearchClause(filters: Option<Filters>): seq<Clause>
  {
    if Truthy(Search(filters)) then [Or(SearchPattern(Search(filters).value))] else []
  }

  /** The clauses of the query, in the order `queryFn` adds them. */
  function Query(filters: Option<Filters>): seq<Clause>
  {
    EqClause(filters, "domain") + EqClause(filters, "status") + SearchClause(filters) + [OrderDesc("last_updated")]
  }

  /** The `if` chain of `queryFn`: each guarded clause is added in turn, the ordering last. */
  method BuildQuery(filters: Option<Filters>) returns (query: seq<Clause>)
    ensures query == Query(filters)
  {
    query := [];
    if filters.Some? && Truthy(filters.value.domain) && filters.value.domain.value != "all" {
      query := query + [Eq("domain", filters.value.domain.value)];
    }
    assert query == EqClause(filters, "domain");
    if filters.Some? && Truthy(filters.value.status) && filters.value.status.value != "all" {
      query := query + [Eq("status", filters.value.status.value)];
    }
    assert query == EqClause(filters, "domain") + EqClause(filters, "status");
    if filters.Some? && Truthy(filters.value.search) {
      query := query + [Or(SearchPattern(filters.value.search.value))];
    }
    query := query + [OrderDesc("last_updated")];
  }

  /**
   * The query filters on a domain or a status exactly when that filter is set,
   * non-empty and not "all", and then on that value alone; it matches the
   * search text exactly when the search is non-empty; it has no other
   * filter, and it ends with the ordering by `last_updated`, newest first.
   */
  lemma QuerySpec(filters: Option<Filters>)
    ensures EqValues(Query(filters), "domain") == EqFor(filters, "domain")
    ensures EqValues(Query(filters), "status") == EqFor(filters, "status")
    ensures OrPatterns(Query(filters)) == if Truthy(Search(filters)) then {SearchPattern(Search(filters).value)} else {}
    ensures forall c :: c in Query(filters) && c.Eq? ==> c.column == "domain" || c.column == "status"
    ensures |Query(filters)| <= 4 && Query(filters)[|Query(filters)| - 1] == OrderDesc("last_updated")
    ensures forall i :: 0 <= i < |Query(filters)| - 1 ==> !Query(filters)[i].OrderDesc?
  {
    var d, st, se := EqClause(filters, "domain"), EqClause(filters, "status"), SearchClause(filters);
    var q := Query(filters);
    assert q == d + st + se + [OrderDesc("last_updated")];
    assert forall c :: c in q <==> c in d || c in st || c in se || c == OrderDesc("last_updated");
    assert EqValues(q, "domain") == EqFor(filters, "domain");
    assert EqValues(q, "status") == EqFor(filters, "status");
    forall i | 0 <= i < |q| - 1 ensures !q[i].OrderDesc? {
      assert q[i] in d + st + se;
    }
  }

  // ---------------------------------------------------------------------------
  // Client-side tag filter
  // ---------------------------------------------------------------------------

  /** `exp.tags?.includes(tag)` for some tag of the filter. */
  predicate HasAnyTag(e: Experiment, wanted: seq<string>)
  {
    e.tags.Some? && exists t :: t in wanted && t in e.tags.value
  }

  /** `rows.filter(exp => wanted.some(tag => exp.tags?.includes(tag)))`. */
  function KeepTagged(rows: seq<Experiment>, wanted: seq<string>): seq<Experiment>
  {
    if rows == [] then []
    else (if HasAnyTag(rows[0], wanted) then [rows[0]] else []) + KeepTagged(rows[1..], wanted)
  }

  /**
   * `filteredData`: the fetched rows (none when the data is null), narrowed
   * to the rows carrying a wanted tag when the tag filter is non-empty.
   */
  function TagFilter(data: Option<seq<Experiment>>, tags: Option<seq<string>>): seq<Experiment>
  {
    var rows := if data.Some? then data.value else [];
    if tags.Some? && |tags.value| > 0 then KeepTagged(rows, tags.value) else rows
  }

  /** `xs` is `ys` with some elements dropped, the rest kept in order. */
  predicate Subsequence<T(==)>(xs: seq<T>, ys: seq<T>)
    decreases |ys|
  {
    xs == [] || (ys != [] && ((xs[0] == ys[0] && Subsequence(xs[1..], ys[1..])) || Subsequence(xs, ys[1..])))
  }

  /** What `queryFn` resolves to: the server's error is rethrown, otherwise the filtered rows. */
  function QueryResult(filters: Option<Filters>, response: Result<Option<seq<Experiment>>, string>): Result<seq<Experiment>, string>
  {
    match response
    case Err(e) => Err(e)
    case Ok(data) => Ok(TagFilter(data, if filters.Some? then filters.value.tags else None))
  }

  /** Without a tag filter, or with an empty one, the rows are returned as fetched. */
  lemma TagFilterIdentity(data: Option<seq<Experiment>>, tags: Option<seq<string>>)
    requires tags.None? || tags.value == []
    ensures data.Some? ==> TagFilter(data, tags) == data.value
    ensures data.None? ==> TagFilter(data, tags) == []
  {
  }

  /** Every row kept carries at least one wanted tag, and comes from the fetched rows. */
  lemma {:induction false} KeepTaggedSound(rows: seq<Experiment>, wanted: seq<string>)
    ensures forall e :: e in KeepTagged(rows, wanted) ==> e in rows && HasAnyTag(e, wanted)
  {
    if rows != [] {
      KeepTaggedSound(rows[1..], wanted);
    }
  }

  /** Every fetched row carrying a wanted tag is kept. */
  lemma {:induction false} KeepTaggedComplete(rows: seq<Experiment>, wanted: seq<string>)
    ensures forall e :: e in rows && HasAnyTag(e, wanted) ==> e in KeepTagged(rows, wanted)
  {
    if rows != [] {
      KeepTaggedComplete(rows[1..], wanted);
      forall e | e in rows && HasAnyTag(e, wanted) ensures e in KeepTagged(rows, wanted) {
        if e != rows[0] {
          assert e in rows[1..];
        }
      }
    }
  }

  /** The rows kept keep their server order (newest first). */
  lemma {:induction false} KeepTaggedOrder(rows: seq<Experiment>, wanted: seq<string>)
    ensures Subsequence(KeepTagged(rows, wanted), rows)
  {
    if rows != [] {
      KeepTaggedOrder(rows[1..], wanted);
      var rest := KeepTagged(rows[1..], wanted);
      if HasAnyTag(rows[0], wanted) {
        assert KeepTagged(rows, wanted) == [rows[0]] + rest;
        assert ([rows[0]] + rest)[1..] == rest;
      } else {
        assert KeepTagged(rows, wanted) == rest;
        SubsequenceSkip(rest, rows);
      }
    }
  }

  /** Dropping the head of `ys` keeps a subsequence of its tail a subsequence. */
  lemma SubsequenceSkip<T>(xs: seq<T>, ys: seq<T>)
    requires ys != [] && Subsequence(xs, ys[1..])
    ensures Subsequence(xs, ys)
  {
  }

  /**
   * With a non-empty tag filter: exactly the rows carrying a wanted tag are
   * returned, in server order, and a row whose tags are null never is.
   */
  lemma TagFilterSpec(data: Option<seq<Experiment>>, wanted: seq<string>)
    requires wanted != []
    ensures var rows := if data.Some? then data.value else [];
            && (forall e :: e in TagFilter(data, Some(wanted)) <==> e in rows && HasAnyTag(e, wanted))
            && Subsequence(TagFilter(data, Some(wanted)), rows)
            && (forall e :: e in TagFilter(data, Some(wanted)) ==> e.tags.Some?)
  {
    var rows := if data.Some? then data.value else [];
    KeepTaggedSound(rows, wanted);
    KeepTaggedComplete(rows, wanted);
    KeepTaggedOrder(rows, wanted);
  }

  /** A failed query rejects with the server's error; a successful one never does. */
  lemma QueryResultSpec(filters: Option<Filters>, response: Result<Option<seq<Experiment>>, string>)
    ensures QueryResult(filters, response).Err? <==> response.Err?
    ensures response.Err? ==> QueryResult(filters, response).error == response.error
  {
  }
}
