/**
  From the filters of a table and a typed keyword to the search condition sent to the backend, and
  what that condition means for a row.
*/
module TableSearch {
  import opened Common

  datatype Scalar = Null | Undefined | Bool(on: bool) | Num(amount: real) | Str(text: string)

  datatype Value = One(scalar: Scalar) | Many(items: seq<Scalar>)

  datatype Operator =
    | ContainsLow | Contains | Equals | In | InLow | Between
    | GreaterOrEquals | LowerOrEquals | IsNull | NotNull | Starts

  datatype Field = Name(name: string) | Path(parts: seq<string>)

  // The search field may be absent, null (never searched) or a name.
  datatype SearchField = Default | Never | Named(field: string)

  datatype Column = Column(
    field: Field,
    operator: Operator,
    searchField: SearchField,
    filterField: Option<string>,
    filterOperator: Option<Operator>,
    numeric: bool,
    uuid: bool)

  datatype Condition =
    | And(all: seq<Condition>)
    | Or(any: seq<Condition>)
    | Atom(field: string, operator: Operator, value: Value)

  type Filters = map<string, Value>

  // The runtime's number syntax and the uuid library: which strings are finite numbers, and which
  // are uuids.
  datatype Checks = Checks(finite: string -> bool, isUuid: string -> bool)

  // ----- Strings -----

  function Join(parts: seq<string>, separator: char): string {
    if parts == [] then "" else if |parts| == 1 then parts[0]
    else parts[0] + [separator] + Join(parts[1..], separator)
  }

  function Split(s: string, separator: char): (parts: seq<string>)
    ensures parts != []
  {
    if s == "" then [""]
    else
      var rest := Split(s[1..], separator);
      if s[0] == separator then [""] + rest else [[s[0]] + rest[0]] + rest[1..]
  }

  lemma {:induction false} SplitJoins(s: string, separator: char)
    ensures Join(Split(s, separator), separator) == s
  {
    if s != "" {
      SplitJoins(s[1..], separator);
      var rest := Split(s[1..], separator);
      assert s == [s[0]] + s[1..];
      if s[0] == separator {
        assert ([""] + rest)[1..] == rest;
        assert "" + [separator] + Join(rest, separator) == s;
      } else {
        JoinGrows(s[0], rest, separator);
      }
    }
  }

  lemma JoinGrows(c: char, parts: seq<string>, separator: char)
    requires parts != []
    ensures Join([[c] + parts[0]] + parts[1..], separator) == [c] + Join(parts, separator)
  {
    var grown := [[c] + parts[0]] + parts[1..];
    assert grown[1..] == parts[1..];
    if |parts| > 1 {
      assert [c] + parts[0] + [separator] + Join(parts[1..], separator) ==
             [c] + (parts[0] + [separator] + Join(parts[1..], separator));
    }
  }

  lemma {:induction false} SplitParts(s: string, separator: char)
    ensures forall i | 0 <= i < |Split(s, separator)| :: separator !in Split(s, separator)[i]
  {
    if s != "" {
      SplitParts(s[1..], separator);
      var rest, parts := Split(s[1..], separator), Split(s, separator);
      forall i | 0 <= i < |parts| ensures separator !in parts[i] {
        assert parts[i] == if s[0] == separator then (if i == 0 then "" else rest[i - 1])
                           else if i == 0 then [s[0]] + rest[0] else rest[i];
      }
    }
  }

  // Splitting is undone by joining, and no part contains the separator.
  lemma SplitMeaning(s: string, separator: char)
    ensures Join(Split(s, separator), separator) == s
    ensures forall part | part in Split(s, separator) :: separator !in part
  {
    SplitJoins(s, separator);
    SplitParts(s, separator);
  }

  // ----- Filters -----

  function DataIndex(col: Column): string {
    match col.field case Name(name) => name case Path(parts) => Join(parts, '.')
  }

  function FilterField(col: Column): string {
    if col.filterField.Some? && col.filterField.value != "" then col.filterField.value else DataIndex(col)
  }

  function FilterOperator(col: Column): Operator {
    if col.filterOperator.Some? then col.filterOperator.value else col.operator
  }

  function Lookup(filters: Filters, key: string): Value {
    if key in filters then filters[key] else One(Undefined)
  }

  predicate IsFilterValueSet(v: Value) {
    v != One(Undefined) && v != One(Null) && v != One(Str(""))
  }

  // The user's value, or else the base value.
  function EffectiveValue(col: Column, filters: Filters, base: Filters): Value {
    var own := Lookup(filters, DataIndex(col));
    if IsFilterValueSet(own) then own else Lookup(base, DataIndex(col))
  }

  // The runtime's conversion of a value to a number, and whether it gives a finite one. A list is
  // converted by its text: its items separated by commas, with null and undefined left empty.
  predicate IsFinite(checks: Checks, v: Value) {
    match v
    case One(x) => !x.Undefined? && (x.Str? ==> checks.finite(x.text))
    case Many(xs) =>
      |xs| == 0 || (|xs| == 1 && !xs[0].Bool? && (xs[0].Str? ==> checks.finite(xs[0].text)))
  }

  // A range keeps its bounds apart: each defined one has to be a number.
  predicate OnlyNumbers(checks: Checks, op: Operator, v: Value) {
    if op == Between && v.Many?
    then forall bound | bound in v.items && bound != Undefined :: IsFinite(checks, One(bound))
    else IsFinite(checks, v)
  }

  predicate Usable(checks: Checks, col: Column, v: Value) {
    && v != One(Str("")) && v != One(Undefined)
    && (col.numeric ==> OnlyNumbers(checks, FilterOperator(col), v))
    && (col.uuid ==> v.One? && v.scalar.Str? && checks.isUuid(v.scalar.text))
  }

  function At(items: seq<Scalar>, i: nat): Scalar {
    if i < |items| then items[i] else Undefined
  }

  function First(v: Value): Scalar {
    match v case One(scalar) => scalar case Many(items) => At(items, 0)
  }

  // The operator and the operand that are sent for a filter.
  function Rewrite(op: Operator, v: Value): (Operator, Value) {
    match op
    case Between =>
      if v.Many? && At(v.items, 0) == Undefined then (LowerOrEquals, One(At(v.items, 1)))
      else if v.Many? && At(v.items, 1) == Undefined then (GreaterOrEquals, One(At(v.items, 0)))
      else (op, v)
    case IsNull => if First(v) != Bool(true) then (NotNull, One(Bool(true))) else (op, One(First(v)))
    case NotNull => if First(v) != Bool(true) then (IsNull, One(Bool(true))) else (op, One(First(v)))
    case In => if v == Many([Null]) then (IsNull, One(Bool(true))) else (op, v)
    case InLow => if v == Many([Null]) then (IsNull, One(Bool(true))) else (op, v)
    case Equals => if v == Many([Null]) || v == One(Null) then (IsNull, One(Bool(true))) else (op, v)
    case _ => (op, v)
  }

  function ConditionOf(col: Column, v: Value): Condition {
    var sent := Rewrite(FilterOperator(col), v);
    Atom(FilterField(col), sent.0, sent.1)
  }

  function Conditions(checks: Checks, cols: seq<Column>, filters: Filters, base: Filters): seq<Condition> {
    if cols == [] then []
    else
      var col := cols[|cols| - 1];
      var v := EffectiveValue(col, filters, base);
      Conditions(checks, cols[..|cols| - 1], filters, base)
      + if Usable(checks, col, v) then [ConditionOf(col, v)] else []
  }

  // The filters without the keys the table reports for columns nobody filters by.
  function SetValues(filters: Filters): Filters {
    map key | key in filters && filters[key] !in {One(Undefined), One(Null), One(Str(""))} :: filters[key]
  }

  // Filters are the base filters, overridden by the values the user set and by nothing else.
  lemma {:induction false} FiltersOverrideBase(checks: Checks, cols: seq<Column>, filters: Filters, base: Filters)
    ensures Conditions(checks, cols, filters, base) == Conditions(checks, cols, map[], base + SetValues(filters))
  {
    if cols != [] {
      var col := cols[|cols| - 1];
      FiltersOverrideBase(checks, cols[..|cols| - 1], filters, base);
      assert EffectiveValue(col, map[], base + SetValues(filters)) == EffectiveValue(col, filters, base);
    }
  }

  predicate NotANumber(checks: Checks, x: Scalar) {
    x.Str? && !checks.finite(x.text)
  }

  // On a numeric column: a text that is no number, alone or as a bound of a range; a list of several
  // values outside a range, or of one boolean. On a uuid column: a list, or what is no uuid.
  predicate Ignored(checks: Checks, col: Column, v: Value) {
    || (col.numeric &&
        match v
        case One(x) => NotANumber(checks, x)
        case Many(xs) =>
          if FilterOperator(col) == Between then exists x | x in xs :: NotANumber(checks, x)
          else |xs| > 1 || (|xs| == 1 && (xs[0].Bool? || NotANumber(checks, xs[0]))))
    || (col.uuid && (v.Many? || !v.scalar.Str? || !checks.isUuid(v.scalar.text)))
  }

  // Exactly when a value the user set has no effect but to hide the base filter, whatever that is.
  lemma SetFilterIsIgnoredIff(checks: Checks, col: Column, filters: Filters)
    requires IsFilterValueSet(Lookup(filters, DataIndex(col)))
    ensures (forall base :: Conditions(checks, [col], filters, base) == []) <==>
              Ignored(checks, col, Lookup(filters, DataIndex(col)))
  {
    if Ignored(checks, col, Lookup(filters, DataIndex(col))) {
      forall base ensures Conditions(checks, [col], filters, base) == [] {
        SetFilterCondition(checks, col, filters, base);
      }
    } else {
      SetFilterCondition(checks, col, filters, map[]);
    }
  }

  lemma SetFilterCondition(checks: Checks, col: Column, filters: Filters, base: Filters)
    requires IsFilterValueSet(Lookup(filters, DataIndex(col)))
    ensures var v := Lookup(filters, DataIndex(col));
            Conditions(checks, [col], filters, base) == if Ignored(checks, col, v) then [] else [ConditionOf(col, v)]
  {
    ConditionsSnoc(checks, [], col, filters, base);
    assert [] + [col] == [col];
    UsableIff(checks, col, Lookup(filters, DataIndex(col)));
  }

  lemma UsableIff(checks: Checks, col: Column, v: Value)
    requires IsFilterValueSet(v)
    ensures Usable(checks, col, v) <==> !Ignored(checks, col, v)
  {
  }

  // A numeric column filtered by two of its values: the filter is lost, and the base filter with it.
  lemma TwoNumbersAreIgnored(checks: Checks, base: Filters)
    ensures var col := Column(Name("id"), In, Default, None, None, true, false);
            Conditions(checks, [col], map["id" := Many([Num(3.0), Num(9.0)])], base) == []
  {
    var col := Column(Name("id"), In, Default, None, None, true, false);
    SetFilterIsIgnoredIff(checks, col, map["id" := Many([Num(3.0), Num(9.0)])]);
  }

  // What a numeric or uuid column may send: finite numbers, save for the operand of a null test
  // or of a range open at both ends; and uuids.
  predicate Sendable(checks: Checks, col: Column, op: Operator, v: Value) {
    if op == IsNull || op == NotNull then v == One(Bool(true))
    else
      && (col.numeric ==> v == One(Undefined) || OnlyNumbers(checks, op, v))
      && (col.uuid ==> v.One? && v.scalar.Str? && checks.isUuid(v.scalar.text))
  }

  lemma SentValuesAreChecked(checks: Checks, col: Column, v: Value)
    requires Usable(checks, col, v)
    ensures var sent := ConditionOf(col, v);
            Sendable(checks, col, sent.operator, sent.value)
  {
    if FilterOperator(col) == Between && v.Many? {
      assert forall i | 0 <= i < |v.items| :: At(v.items, i) in v.items;
    }
  }

  // The filter keys that belong to no column.
  function Unknown(cols: seq<Column>, filters: Filters, base: Filters): set<string> {
    set key | key in filters.Keys + base.Keys && forall col | col in cols :: DataIndex(col) != key
  }

  lemma ConditionsSnoc(checks: Checks, cols: seq<Column>, col: Column, filters: Filters, base: Filters)
    ensures var v := EffectiveValue(col, filters, base);
            Conditions(checks, cols + [col], filters, base) ==
            Conditions(checks, cols, filters, base) + if Usable(checks, col, v) then [ConditionOf(col, v)] else []
  {
    assert (cols + [col])[..|cols|] == cols;
  }

  lemma UnknownSnoc(cols: seq<Column>, col: Column, filters: Filters, base: Filters)
    ensures Unknown(cols + [col], filters, base) == Unknown(cols, filters, base) - {DataIndex(col)}
  {
    assert forall c :: c in cols + [col] <==> c in cols || c == col;
  }

  // Fails exactly when some filter key belongs to no column, and names all such keys.
  method GetFiltersSearch(checks: Checks, searchableColumns: seq<Column>, filters: Filters, baseFilters: Filters)
    returns (r: Result<Condition, set<string>>)
    ensures var unknown := Unknown(searchableColumns, filters, baseFilters);
            r == if unknown != {} then Err(unknown)
                else Ok(And(Conditions(checks, searchableColumns, filters, baseFilters)))
    ensures r.Ok? ==> forall key | key in filters || key in baseFilters ::
                        exists col | col in searchableColumns :: DataIndex(col) == key
    ensures r.Err? ==> forall key :: key in r.error <==>
              (key in filters || key in baseFilters) && forall col | col in searchableColumns :: DataIndex(col) != key
  {
    var filterKeys := filters.Keys + baseFilters.Keys;
    var search: seq<Condition> := [];
    for i := 0 to |searchableColumns|
      invariant filterKeys == Unknown(searchableColumns[..i], filters, baseFilters)
      invariant search == Conditions(checks, searchableColumns[..i], filters, baseFilters)
    {
      var col := searchableColumns[i];
      ghost var done := searchableColumns[..i];
      assert searchableColumns[..i + 1] == done + [col];
      ConditionsSnoc(checks, done, col, filters, baseFilters);
      UnknownSnoc(done, col, filters, baseFilters);
      var value := EffectiveValue(col, filters, baseFilters);
      filterKeys := filterKeys - {DataIndex(col)};
      if Usable(checks, col, value) {
        var condition := Translate(col, value);
        search := search + [condition];
      }
    }
    assert searchableColumns[..|searchableColumns|] == searchableColumns;
    if filterKeys != {} {
      return Err(filterKeys);
    }
    assert forall key | key in filters || key in baseFilters ::
        key !in Unknown(searchableColumns, filters, baseFilters);
    return Ok(And(search));
  }

  // The switch over the operator, which overwrites the operator and the value step by step.
  method Translate(col: Column, v: Value) returns (c: Condition)
    ensures c == ConditionOf(col, v)
  {
    var operator, value := FilterOperator(col), v;
    match operator {
      case Between =>
        if value.Many? {
          if At(value.items, 0) == Undefined {
            operator, value := LowerOrEquals, One(At(value.items, 1));
          } else if At(value.items, 1) == Undefined {
            operator, value := GreaterOrEquals, One(At(value.items, 0));
          }
        }
      case IsNull =>
        if value.Many? { value := One(At(value.items, 0)); }
        if value != One(Bool(true)) { operator, value := NotNull, One(Bool(true)); }
      case NotNull =>
        if value.Many? { value := One(At(value.items, 0)); }
        if value != One(Bool(true)) { operator, value := IsNull, One(Bool(true)); }
      case In =>
        if value.Many? && |value.items| == 1 && value.items[0] == Null { operator, value := IsNull, One(Bool(true)); }
      case InLow =>
        if value.Many? && |value.items| == 1 && value.items[0] == Null { operator, value := IsNull, One(Bool(true)); }
      case Equals =>
        if (value.Many? && |value.items| == 1 && value.items[0] == Null) || value == One(Null) {
          operator, value := IsNull, One(Bool(true));
        }
      case _ =>
    }
    c := Atom(FilterField(col), operator, value);
  }

  // ----- What a condition means for a row -----

  type Row = map<string, Scalar>

  // The backend's comparisons of a cell that is not null: the order of the column, what an
  // operator makes of a single value, and what it makes of a list where it expects a value.
  datatype Backend = Backend(
    leq: (Scalar, Scalar) -> bool,
    one: (Operator, Scalar, Scalar) -> bool,
    many: (Operator, seq<Scalar>, Scalar) -> bool)

  function Cell(row: Row, field: string): Scalar {
    if field in row then row[field] else Null
  }

  // SQL comparisons with null are never true.
  predicate AtMost(b: Backend, x: Scalar, y: Scalar) {
    x != Null && y != Null && b.leq(x, y)
  }

  // An undefined operand is lost when the condition is serialised, and leaves nothing to check.
  predicate Accepts(b: Backend, op: Operator, v: Value, cell: Scalar) {
    match op
    case IsNull => cell == Null
    case NotNull => cell != Null
    case _ => v == One(Undefined) || (cell != Null && Compares(b, op, v, cell))
  }

  predicate Compares(b: Backend, op: Operator, v: Value, cell: Scalar) {
    match v
    case One(x) =>
      if op == LowerOrEquals then AtMost(b, cell, x)
      else if op == GreaterOrEquals then AtMost(b, x, cell)
      else if op == Equals || op == In || op == InLow then x != Null && b.one(op, x, cell)
      else b.one(op, x, cell)
    case Many(xs) =>
      if op == Between && |xs| >= 2 then AtMost(b, xs[0], cell) && AtMost(b, cell, xs[1])
      else if op == In || op == InLow then exists x | x in xs :: x != Null && x != Undefined && b.one(op, x, cell)
      else b.many(op, xs, cell)
  }

  predicate Satisfies(b: Backend, row: Row, c: Condition) {
    match c
    case And(cs) => forall d | d in cs :: Satisfies(b, row, d)
    case Or(cs) => exists d | d in cs :: Satisfies(b, row, d)
    case Atom(field, op, v) => Accepts(b, op, v, Cell(row, field))
  }

  // ----- What the user means by a filter -----

  // Null is a value like any other.
  predicate Is(b: Backend, op: Operator, x: Scalar, cell: Scalar) {
    if x == Null || cell == Null then x == cell else b.one(op, x, cell)
  }

  // Each defined bound limits the cell.
  predicate InRange(b: Backend, low: Scalar, high: Scalar, cell: Scalar) {
    (low == Undefined || AtMost(b, low, cell)) && (high == Undefined || AtMost(b, cell, high))
  }

  predicate Meaning(b: Backend, op: Operator, v: Value, cell: Scalar) {
    match op
    case Between => if v.Many? then InRange(b, At(v.items, 0), At(v.items, 1), cell) else Accepts(b, op, v, cell)
    case IsNull => v == One(Bool(true)) || StartsWith(v, Bool(true)) <==> cell == Null
    case NotNull => v == One(Bool(true)) || StartsWith(v, Bool(true)) <==> cell != Null
    case In => if v.Many? then IsAny(b, op, v.items, cell) else Accepts(b, op, v, cell)
    case InLow => if v.Many? then IsAny(b, op, v.items, cell) else Accepts(b, op, v, cell)
    case Equals =>
      if v.One? && v.scalar != Undefined then Is(b, op, v.scalar, cell)
      else if v == Many([Null]) then cell == Null
      else Accepts(b, op, v, cell)
    case _ => Accepts(b, op, v, cell)
  }

  predicate StartsWith(v: Value, x: Scalar) {
    v.Many? && |v.items| > 0 && v.items[0] == x
  }

  predicate IsAny(b: Backend, op: Operator, xs: seq<Scalar>, cell: Scalar) {
    exists x | x in xs :: x != Undefined && Is(b, op, x, cell)
  }

  // A list that names null beside other values, on a row where the cell is null.
  predicate LosesNull(op: Operator, v: Value, cell: Scalar) {
    (op == In || op == InLow) && v.Many? && Null in v.items && v.items != [Null] && cell == Null
  }

  // What is sent accepts a cell exactly when the filter means it to, except that the null of a
  // longer list is lost.
  lemma RewriteMeaning(b: Backend, op: Operator, v: Value, cell: Scalar)
    requires cell != Undefined
    ensures var sent := Rewrite(op, v);
            Accepts(b, sent.0, sent.1, cell) <==> Meaning(b, op, v, cell) && !LosesNull(op, v, cell)
  {
    if (op == In || op == InLow) && v.Many? {
      ListMeaning(b, op, v.items, cell);
    }
  }

  lemma ListMeaning(b: Backend, op: Operator, xs: seq<Scalar>, cell: Scalar)
    requires op == In || op == InLow
    requires cell != Undefined
    ensures xs != [Null] ==>
              (Accepts(b, op, Many(xs), cell) <==> IsAny(b, op, xs, cell) && !LosesNull(op, Many(xs), cell))
    ensures IsAny(b, op, [Null], cell) <==> cell == Null
  {
    assert Null in [Null];
    if cell == Null {
      assert IsAny(b, op, xs, cell) <==> Null in xs;
    }
  }

  // A translation keeps the filter's meaning for every cell if and only if it is not a list that
  // names null beside other values.
  lemma RewriteKeepsMeaningIff(b: Backend, op: Operator, v: Value)
    ensures (forall cell | cell != Undefined ::
               Accepts(b, Rewrite(op, v).0, Rewrite(op, v).1, cell) <==> Meaning(b, op, v, cell)) <==>
            !((op == In || op == InLow) && v.Many? && Null in v.items && |v.items| != 1)
  {
    forall cell | cell != Undefined
      ensures Accepts(b, Rewrite(op, v).0, Rewrite(op, v).1, cell) <==>
                Meaning(b, op, v, cell) && !LosesNull(op, v, cell)
    {
      RewriteMeaning(b, op, v, cell);
    }
    if (op == In || op == InLow) && v.Many? && Null in v.items {
      ListMeaning(b, op, v.items, Null);
      assert |v.items| == 1 ==> v.items == [Null];
      assert Meaning(b, op, v, Null) by { assert Is(b, op, Null, Null); }
    }
  }

  // The columns whose effective filter is usable.
  predicate Active(checks: Checks, col: Column, filters: Filters, base: Filters) {
    Usable(checks, col, EffectiveValue(col, filters, base))
  }

  // The cell a filter of the column looks at: of the filter field if one is given, else of the field.
  function FilteredCell(row: Row, col: Column): Scalar {
    match col.filterField
    case Some(field) => if field != "" then Cell(row, field) else OwnCell(row, col)
    case None => OwnCell(row, col)
  }

  function OwnCell(row: Row, col: Column): Scalar {
    Cell(row, match col.field case Name(name) => name case Path(parts) => Join(parts, '.'))
  }

  predicate Meets(b: Backend, row: Row, col: Column, filters: Filters, base: Filters) {
    var op := match col.filterOperator case Some(own) => own case None => col.operator;
    Meaning(b, op, EffectiveValue(col, filters, base), FilteredCell(row, col))
  }

  predicate LosesRow(row: Row, col: Column, filters: Filters, base: Filters) {
    var op := match col.filterOperator case Some(own) => own case None => col.operator;
    LosesNull(op, EffectiveValue(col, filters, base), FilteredCell(row, col))
  }

  // Cells hold values.
  predicate WellFormed(row: Row) {
    forall field | field in row :: row[field] != Undefined
  }

  // A row is found exactly when it meets the effective filter of every column that has a usable
  // one, and no column's list loses it to a null.
  lemma {:induction false} FiltersMeaning(b: Backend, row: Row, checks: Checks, cols: seq<Column>, filters: Filters,
      base: Filters)
    requires WellFormed(row)
    ensures Satisfies(b, row, And(Conditions(checks, cols, filters, base))) <==>
            forall col | col in cols && Active(checks, col, filters, base) ::
              Meets(b, row, col, filters, base) && !LosesRow(row, col, filters, base)
  {
    if cols != [] {
      var init, last := cols[..|cols| - 1], cols[|cols| - 1];
      assert cols == init + [last];
      FiltersMeaning(b, row, checks, init, filters, base);
      var before, after := Conditions(checks, init, filters, base), Conditions(checks, cols, filters, base);
      var v := EffectiveValue(last, filters, base);
      RewriteMeaning(b, FilterOperator(last), v, Cell(row, FilterField(last)));
      if Active(checks, last, filters, base) {
        AndSnoc(b, row, before, ConditionOf(last, v));
      } else {
        assert after == before;
      }
    }
  }

  lemma AndSnoc(b: Backend, row: Row, cs: seq<Condition>, c: Condition)
    ensures Satisfies(b, row, And(cs + [c])) <==> Satisfies(b, row, And(cs)) && Satisfies(b, row, c)
  {
    AndAppend(b, row, cs, [c]);
    assert c in [c];
  }

  lemma AndAppend(b: Backend, row: Row, cs: seq<Condition>, ds: seq<Condition>)
    ensures Satisfies(b, row, And(cs + ds)) <==> Satisfies(b, row, And(cs)) && Satisfies(b, row, And(ds))
  {
    assert forall c :: c in cs + ds <==> c in cs || c in ds;
  }

  // ----- Keyword -----

  // Hidden columns, by their index with commas; an entry may leave open whether it shows.
  type ColumnsStates = map<string, Option<bool>>

  function ColumnIndex(col: Column): string {
    match col.field case Name(name) => name case Path(parts) => Join(parts, ',')
  }

  predicate IsHidden(col: Column, states: ColumnsStates) {
    ColumnIndex(col) in states && states[ColumnIndex(col)] != Some(true)
  }

  predicate Searched(checks: Checks, states: ColumnsStates, col: Column, word: string) {
    && col.searchField != Never
    && !IsHidden(col, states)
    && (col.numeric ==> checks.finite(word))
    && (col.uuid ==> checks.isUuid(word))
  }

  function FieldOf(col: Column): string {
    if col.searchField.Named? && col.searchField.field != "" then col.searchField.field else DataIndex(col)
  }

  function WordAtom(col: Column, word: string): Condition {
    Atom(FieldOf(col), col.operator, One(Str(word)))
  }

  function WordAtoms(checks: Checks, states: ColumnsStates, cols: seq<Column>, word: string): seq<Condition> {
    if cols == [] then []
    else
      var col := cols[|cols| - 1];
      WordAtoms(checks, states, cols[..|cols| - 1], word)
      + if Searched(checks, states, col, word) then [WordAtom(col, word)] else []
  }

  function WordSearches(checks: Checks, states: ColumnsStates, cols: seq<Column>, words: seq<string>): seq<Condition> {
    if words == [] then []
    else
      WordSearches(checks, states, cols, words[..|words| - 1])
      + [Or(WordAtoms(checks, states, cols, words[|words| - 1]))]
  }

  method ApplyKeywordToSearch(
      checks: Checks, filterSearch: Condition, searchableColumns: seq<Column>,
      columnsState: Option<ColumnsStates>, keyword: Option<string>)
    returns (r: Result<Condition, string>)
    ensures var states := if columnsState.Some? then columnsState.value else map[];
            r == if keyword == None || keyword.value == "" then Ok(filterSearch)
                 else if !filterSearch.And? then Err("Bad format of filter search")
                 else Ok(And(filterSearch.all +
                     WordSearches(checks, states, searchableColumns, Split(keyword.value, ' '))))
  {
    if keyword == None || keyword.value == "" {
      return Ok(filterSearch);
    }
    var states := if columnsState.Some? then columnsState.value else map[];
    var words := Split(keyword.value, ' ');
    var keywordSearches: seq<Condition> := [];
    for i := 0 to |words|
      invariant keywordSearches == WordSearches(checks, states, searchableColumns, words[..i])
    {
      var keywordSearch: seq<Condition> := [];
      for j := 0 to |searchableColumns|
        invariant keywordSearch == WordAtoms(checks, states, searchableColumns[..j], words[i])
      {
        assert searchableColumns[..j + 1][..j] == searchableColumns[..j];
        var col := searchableColumns[j];
        if Searched(checks, states, col, words[i]) {
          keywordSearch := keywordSearch + [WordAtom(col, words[i])];
        }
      }
      assert searchableColumns[..|searchableColumns|] == searchableColumns;
      assert words[..i + 1][..i] == words[..i];
      keywordSearches := keywordSearches + [Or(keywordSearch)];
    }
    assert words[..|words|] == words;
    if !filterSearch.And? {
      return Err("Bad format of filter search");
    }
    return Ok(And(filterSearch.all + keywordSearches));
  }

  // The cell the keyword looks at: of the search field if one is given, else of the field.
  function SearchedCell(row: Row, col: Column): Scalar {
    match col.searchField
    case Named(field) => if field != "" then Cell(row, field) else OwnCell(row, col)
    case _ => OwnCell(row, col)
  }

  // The column has no recorded state, or one that says it is shown.
  predicate Shows(states: ColumnsStates, col: Column) {
    var index := match col.field case Name(name) => name case Path(parts) => Join(parts, ',');
    index in states ==> states[index] == Some(true)
  }

  // Some column of the row matches the word: one that shows, is not excluded and may hold the word.
  predicate WordFound(b: Backend, row: Row, checks: Checks, states: ColumnsStates, cols: seq<Column>, word: string) {
    exists col | col in cols ::
      && col.searchField != Never && Shows(states, col)
      && (col.numeric ==> checks.finite(word)) && (col.uuid ==> checks.isUuid(word))
      && Accepts(b, col.operator, One(Str(word)), SearchedCell(row, col))
  }

  lemma {:induction false} WordMeaning(b: Backend, row: Row, checks: Checks, states: ColumnsStates,
      cols: seq<Column>, word: string)
    ensures Satisfies(b, row, Or(WordAtoms(checks, states, cols, word))) <==>
            WordFound(b, row, checks, states, cols, word)
  {
    if cols != [] {
      var init, last := cols[..|cols| - 1], cols[|cols| - 1];
      assert cols == init + [last];
      WordMeaning(b, row, checks, states, init, word);
      var before, after := WordAtoms(checks, states, init, word), WordAtoms(checks, states, cols, word);
      if Searched(checks, states, last, word) {
        assert after == before + [WordAtom(last, word)];
        assert WordAtom(last, word) in after;
        assert forall c | c in before :: c in after;
      } else {
        assert after == before;
      }
    }
  }

  lemma {:induction false} WordsMeaning(b: Backend, row: Row, checks: Checks, states: ColumnsStates,
      cols: seq<Column>, words: seq<string>)
    ensures Satisfies(b, row, And(WordSearches(checks, states, cols, words))) <==>
            forall word | word in words :: WordFound(b, row, checks, states, cols, word)
  {
    if words != [] {
      var init, last := words[..|words| - 1], words[|words| - 1];
      assert words == init + [last];
      WordsMeaning(b, row, checks, states, cols, init);
      WordMeaning(b, row, checks, states, cols, last);
      AndSnoc(b, row, WordSearches(checks, states, cols, init), Or(WordAtoms(checks, states, cols, last)));
    }
  }

  // The whole search: filters that are all known, then a keyword. A row is found exactly when it
  // meets every usable filter, is not lost to a null, and has every word of the keyword in some
  // visible column that accepts the word.
  lemma SearchMeaning(
      b: Backend, row: Row, checks: Checks, cols: seq<Column>, filters: Filters, base: Filters,
      states: ColumnsStates, keyword: string)
    requires WellFormed(row)
    ensures var words := Split(keyword, ' ');
            Satisfies(b, row, And(Conditions(checks, cols, filters, base) +
                WordSearches(checks, states, cols, words))) <==>
            (forall col | col in cols && Active(checks, col, filters, base) ::
               Meets(b, row, col, filters, base) && !LosesRow(row, col, filters, base))
            && (forall word | word in words :: WordFound(b, row, checks, states, cols, word))
  {
    var words := Split(keyword, ' ');
    AndAppend(b, row, Conditions(checks, cols, filters, base), WordSearches(checks, states, cols, words));
    FiltersMeaning(b, row, checks, cols, filters, base);
    WordsMeaning(b, row, checks, states, cols, words);
  }

  // A filter for "null or a" that does not find the rows with null.
  lemma NullInListIsLost(b: Backend)
    ensures var v := Many([Null, Str("a")]);
            Meaning(b, In, v, Null) && !Accepts(b, Rewrite(In, v).0, Rewrite(In, v).1, Null)
  {
    assert Is(b, In, Null, Null) && Null in [Null, Str("a")];
  }
}
