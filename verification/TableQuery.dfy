/** The search of a table's request: filters, then keyword, under the chosen set of columns. */
module TableQuery {
  import opened Common
  import T = TableSearch
  import C = ColumnsSets

  // Values from the search form override those of the table's own filters.
  function Search(checks: T.Checks, cols: seq<T.Column>, filters: T.Filters, form: T.Filters, base: T.Filters,
                  states: T.ColumnsStates, keyword: Option<string>): T.Condition
  {
    var conditions := T.Conditions(checks, cols, filters + form, base);
    if keyword == None || keyword.value == "" then T.And(conditions)
    else T.And(conditions + T.WordSearches(checks, states, cols, T.Split(keyword.value, ' ')))
  }

  datatype Error = Absent | UnknownFilters(keys: set<string>)

  // The search columns and the column state are optional, but the search fails without them; the
  // state's value may be open all the same. Beyond that it is refused for unknown filter keys and
  // for nothing else: what the filters give is always a conjunction that the keyword can join.
  method GetTableDataSearch(
      checks: T.Checks, searchableColumns: Option<seq<T.Column>>, filters: T.Filters, filtersFromSearchForm: T.Filters,
      baseFilters: T.Filters, columnsState: Option<Option<T.ColumnsStates>>, keyword: Option<string>)
    returns (r: Result<T.Condition, Error>)
    ensures r ==
            if searchableColumns.None? then Err(Absent)
            else
              var unknown := T.Unknown(searchableColumns.value, filters + filtersFromSearchForm, baseFilters);
              if unknown != {} then Err(UnknownFilters(unknown))
              else if columnsState.None? then Err(Absent)
              else
                var states := if columnsState.value.Some? then columnsState.value.value else map[];
                Ok(Search(checks, searchableColumns.value, filters, filtersFromSearchForm, baseFilters, states,
                    keyword))
  {
    if searchableColumns.None? {
      return Err(Absent);
    }
    var columns := searchableColumns.value;
    var search := T.GetFiltersSearch(checks, columns, filters + filtersFromSearchForm, baseFilters);
    if search.Err? {
      return Err(UnknownFilters(search.error));
    }
    if columnsState.None? {
      return Err(Absent);
    }
    var result := T.ApplyKeywordToSearch(checks, search.value, columns, columnsState.value, keyword);
    return Ok(result.value);
  }

  // The rows found: all usable filters are met, no list loses the row to a null, and every word of
  // a keyword is in some searched column.
  lemma SearchFinds(b: T.Backend, row: T.Row, checks: T.Checks, cols: seq<T.Column>, filters: T.Filters,
      form: T.Filters,
                    base: T.Filters, states: T.ColumnsStates, keyword: Option<string>)
    requires T.WellFormed(row)
    ensures T.Satisfies(b, row, Search(checks, cols, filters, form, base, states, keyword)) <==>
              (forall col | col in cols && T.Active(checks, col, filters + form, base) ::
                 T.Meets(b, row, col, filters + form, base) && !T.LosesRow(row, col, filters + form, base))
              && (keyword.Some? && keyword.value != "" ==>
                    forall word | word in T.Split(keyword.value, ' ') ::
                        T.WordFound(b, row, checks, states, cols, word))
  {
    if keyword.Some? && keyword.value != "" {
      T.SearchMeaning(b, row, checks, cols, filters + form, base, states, keyword.value);
    } else {
      T.FiltersMeaning(b, row, checks, cols, filters + form, base);
    }
  }

  // The state a column set gives: its hidden columns, and no others.
  function StatesOf(tree: seq<C.Column>, shown: set<string>): T.ColumnsStates {
    map k | k in C.Hidden(tree, shown) :: Some(false)
  }

  // Under a column set, a searchable column that the tree displays is looked at exactly when
  // something in its subtree is shown, it is not excluded, and it accepts the word.
  lemma SearchFollowsColumnsSet(checks: T.Checks, tree: seq<C.Column>, shown: set<string>, c: C.Column,
      col: T.Column, word: string)
    requires C.AllIndexed(tree) && C.DistinctIndices(tree) && c in C.Nodes(tree)
    requires c.index.value == T.ColumnIndex(col)
    ensures T.Searched(checks, StatesOf(tree, shown), col, word) <==>
              && C.Indices(c) * shown != {} && col.searchField != T.Never
              && (col.numeric ==> checks.finite(word)) && (col.uuid ==> checks.isUuid(word))
  {
    C.HiddenIffNothingShown(tree, shown, c);
  }
}
