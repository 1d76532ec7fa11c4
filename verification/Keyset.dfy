/** The keyset filter: a disjunction of conjunctions that selects the rows strictly
    after a cursor. `less` is the database's order of each column's non-null values. */
module Keyset {
  import opened Wrappers
  import opened Text
  import opened JsonValues
  import opened SortFields
  import opened Cursor

  datatype Condition =
    | Equals(column: string, value: Value)
    | Greater(column: string, value: Value)
    | Less(column: string, value: Value)
    | All(conjuncts: seq<Condition>)
    | Any(disjuncts: seq<Condition>)

  /** Column values by column name. */
  type Row = map<string, Value>

  type Order = (string, Value, Value) -> bool

  function Cell(row: Row, column: string): Value {
    if column in row then row[column] else Plain(Null)
  }

  /** What the database makes of a condition. */
  predicate Holds(condition: Condition, row: Row, less: Order) {
    match condition
    case Equals(column, value) => Cell(row, column) == value
    case Greater(column, value) => less(column, value, Cell(row, column))
    case Less(column, value) => less(column, Cell(row, column), value)
    case All(cs) => forall i | 0 <= i < |cs| :: Holds(cs[i], row, less)
    case Any(cs) => exists i | 0 <= i < |cs| :: Holds(cs[i], row, less)
  }

  // ------------------------------------------------------------------- the filter

  /** The cursor's values by field name, as the loop's dictionary holds them. */
  function ParsedValues(fields: seq<SortField>, values: map<string, Json>, iso: Iso): (parsed: map<string, Value>)
    ensures forall i | 0 <= i < |fields| :: fields[i].name in parsed
  {
    if fields == [] then map[]
    else
      var field := Last(fields);
      ParsedValues(Front(fields), values, iso)[field.name := ParseValue(Get(values, field.name), field.spec.parser, iso)]
  }

  /** Where a cursor or a row stands: one value per sort field, and the id. */
  datatype Key = Key(values: seq<Value>, id: Value)

  function CursorKey(fields: seq<SortField>, values: map<string, Json>, id: Json, iso: Iso): (key: Key)
    ensures |key.values| == |fields|
  {
    var parsed := ParsedValues(fields, values, iso);
    Key(seq(|fields|, i requires 0 <= i < |fields| => parsed[fields[i].name]), Plain(id))
  }

  function RowKey(fields: seq<SortField>, idColumn: string, row: Row): (key: Key)
    ensures |key.values| == |fields|
  {
    Key(seq(|fields|, i requires 0 <= i < |fields| => Cell(row, fields[i].spec.column)), Cell(row, idColumn))
  }

  function Compare(column: string, direction: Direction, value: Value): Condition {
    if direction.Asc? then Greater(column, value) else Less(column, value)
  }

  function Prefix(fields: seq<SortField>, key: Key, n: nat): (equals: seq<Condition>)
    requires |key.values| == |fields| && n <= |fields|
    ensures |equals| == n
    ensures forall p | 0 <= p < n :: equals[p] == Equals(fields[p].spec.column, key.values[p])
  {
    seq(n, p requires 0 <= p < n => Equals(fields[p].spec.column, key.values[p]))
  }

  /** Branch n of the filter: equal before field n, strictly beyond in field n; the last
      branch compares the id in the first field's direction. */
  function BranchCondition(fields: seq<SortField>, idColumn: string, key: Key, n: nat): Condition
    requires |key.values| == |fields| && n <= |fields| && fields != []
  {
    var beyond := if n == |fields| then Compare(idColumn, fields[0].direction, key.id)
                  else Compare(fields[n].spec.column, fields[n].direction, key.values[n]);
    All(Prefix(fields, key, n) + [beyond])
  }

  function FilterOf(fields: seq<SortField>, idColumn: string, key: Key): (filter: Condition)
    requires |key.values| == |fields| && fields != []
    ensures filter.Any? && |filter.disjuncts| == |fields| + 1
    ensures forall n | 0 <= n <= |fields| :: filter.disjuncts[n] == BranchCondition(fields, idColumn, key, n)
  {
    Any(seq(|fields| + 1, n requires 0 <= n < |fields| + 1 => BranchCondition(fields, idColumn, key, n)))
  }

  method ParseCursorValues(fields: seq<SortField>, values: map<string, Json>, iso: Iso) returns (parsed: map<string, Value>)
    ensures parsed == ParsedValues(fields, values, iso)
  {
    parsed := map[];
    for i := 0 to |fields|
      invariant parsed == ParsedValues(fields[..i], values, iso)
    {
      assert Front(fields[..i + 1]) == fields[..i];
      parsed := parsed[fields[i].name := ParseValue(Get(values, fields[i].name), fields[i].spec.parser, iso)];
    }
    assert fields[..|fields|] == fields;
  }

  method PrefixConditions(fields: seq<SortField>, parsed: map<string, Value>, n: nat, ghost key: Key)
    returns (equals: seq<Condition>)
    requires |key.values| == |fields| && n <= |fields|
    requires forall i | 0 <= i < |fields| :: fields[i].name in parsed && parsed[fields[i].name] == key.values[i]
    ensures equals == Prefix(fields, key, n)
  {
    equals := [];
    for p := 0 to n
      invariant equals == Prefix(fields, key, n)[..p]
    {
      equals := equals + [Equals(fields[p].spec.column, parsed[fields[p].name])];
    }
  }

  method BuildCursorFilter(fields: seq<SortField>, values: map<string, Json>, id: Json, idColumn: string, iso: Iso)
    returns (r: Result<Condition, Refusal>)
    ensures fields == [] ==> r == Err(NoSortFields)
    ensures fields != [] ==> r == Ok(FilterOf(fields, idColumn, CursorKey(fields, values, id, iso)))
  {
    if |fields| == 0 {
      return Err(NoSortFields);
    }
    var parsed := ParseCursorValues(fields, values, iso);
    ghost var key := CursorKey(fields, values, id, iso);
    var conditions: seq<Condition> := [];
    for n := 0 to |fields|
      invariant conditions == FilterOf(fields, idColumn, key).disjuncts[..n]
    {
      var prefix := PrefixConditions(fields, parsed, n, key);
      conditions := conditions
        + [All(prefix + [Compare(fields[n].spec.column, fields[n].direction, parsed[fields[n].name])])];
    }
    var all := PrefixConditions(fields, parsed, |fields|, key);
    conditions := conditions + [All(all + [Compare(idColumn, fields[0].direction, Plain(id))])];
    assert FilterOf(fields, idColumn, key).disjuncts == conditions;
    r := Ok(Any(conditions));
  }

  // ------------------------------------------------------------------- the order

  predicate FieldBefore(less: Order, column: string, direction: Direction, x: Value, y: Value) {
    if direction.Asc? then less(column, x, y) else less(column, y, x)
  }

  /** Lexicographic order from field n on, the id breaking ties in the first field's
      direction: the listing's ORDER BY. */
  predicate BeforeFrom(less: Order, fields: seq<SortField>, idColumn: string, a: Key, b: Key, n: nat)
    requires |a.values| == |b.values| == |fields| && n <= |fields| && fields != []
    decreases |fields| - n
  {
    if n == |fields| then FieldBefore(less, idColumn, fields[0].direction, a.id, b.id)
    else if a.values[n] == b.values[n] then BeforeFrom(less, fields, idColumn, a, b, n + 1)
    else FieldBefore(less, fields[n].spec.column, fields[n].direction, a.values[n], b.values[n])
  }

  predicate Before(less: Order, fields: seq<SortField>, idColumn: string, a: Key, b: Key)
    requires |a.values| == |b.values| == |fields| && fields != []
  {
    BeforeFrom(less, fields, idColumn, a, b, 0)
  }

  ghost predicate Irreflexive(less: Order) {
    forall c, x :: !less(c, x, x)
  }

  ghost predicate Transitive(less: Order) {
    forall c, x, y, z :: less(c, x, y) && less(c, y, z) ==> less(c, x, z)
  }

  ghost predicate Total(less: Order) {
    forall c, x, y :: x != y ==> less(c, x, y) || less(c, y, x)
  }

  ghost predicate StrictTotalOrder(less: Order) {
    Irreflexive(less) && Transitive(less) && Total(less)
  }

  // ------------------------------------------------------------------- filter and order agree

  predicate EqualUpTo(a: Key, b: Key, n: nat)
    requires n <= |a.values| == |b.values|
  {
    forall p | 0 <= p < n :: a.values[p] == b.values[p]
  }

  predicate Branch(less: Order, fields: seq<SortField>, idColumn: string, a: Key, b: Key, n: nat)
    requires |a.values| == |b.values| == |fields| && n <= |fields| && fields != []
  {
    && EqualUpTo(a, b, n)
    && if n == |fields| then FieldBefore(less, idColumn, fields[0].direction, a.id, b.id)
       else FieldBefore(less, fields[n].spec.column, fields[n].direction, a.values[n], b.values[n])
  }

  lemma AllOfPrefix(prefix: seq<Condition>, last: Condition, row: Row, less: Order)
    ensures Holds(All(prefix + [last]), row, less) <==>
              (forall p | 0 <= p < |prefix| :: Holds(prefix[p], row, less)) && Holds(last, row, less)
  {
    var cs := prefix + [last];
    assert cs[|prefix|] == last;
    assert forall p | 0 <= p < |prefix| :: cs[p] == prefix[p];
  }

  lemma PrefixHolds(less: Order, fields: seq<SortField>, idColumn: string, key: Key, row: Row, n: nat)
    requires |key.values| == |fields| && n <= |fields|
    ensures (forall p | 0 <= p < n :: Holds(Prefix(fields, key, n)[p], row, less))
       <==> EqualUpTo(key, RowKey(fields, idColumn, row), n)
  {
    var other := RowKey(fields, idColumn, row);
    forall p | 0 <= p < n
      ensures Holds(Prefix(fields, key, n)[p], row, less) <==> key.values[p] == other.values[p]
    {
      assert Prefix(fields, key, n)[p] == Equals(fields[p].spec.column, key.values[p]);
    }
  }

  lemma BranchHolds(less: Order, fields: seq<SortField>, idColumn: string, key: Key, row: Row, n: nat)
    requires |key.values| == |fields| && n <= |fields| && fields != []
    ensures Holds(BranchCondition(fields, idColumn, key, n), row, less)
       <==> Branch(less, fields, idColumn, key, RowKey(fields, idColumn, row), n)
  {
    var beyond := if n == |fields| then Compare(idColumn, fields[0].direction, key.id)
                  else Compare(fields[n].spec.column, fields[n].direction, key.values[n]);
    AllOfPrefix(Prefix(fields, key, n), beyond, row, less);
    PrefixHolds(less, fields, idColumn, key, row, n);
  }

  lemma FilterIsSomeBranch(less: Order, fields: seq<SortField>, idColumn: string, key: Key, row: Row)
    requires |key.values| == |fields| && fields != []
    ensures Holds(FilterOf(fields, idColumn, key), row, less) <==>
              exists n | 0 <= n <= |fields| :: Branch(less, fields, idColumn, key, RowKey(fields, idColumn, row), n)
  {
    var filter := FilterOf(fields, idColumn, key);
    forall n | 0 <= n <= |fields|
      ensures Holds(filter.disjuncts[n], row, less)
         <==> Branch(less, fields, idColumn, key, RowKey(fields, idColumn, row), n)
    {
      BranchHolds(less, fields, idColumn, key, row, n);
    }
  }

  /** Keys equal before field n are ordered from n on exactly when some branch from n on
      holds. */
  lemma {:induction false} SomeBranchIsOrder(less: Order, fields: seq<SortField>, idColumn: string, a: Key, b: Key, n: nat)
    requires Irreflexive(less) && |a.values| == |b.values| == |fields| && n <= |fields| && fields != []
    requires EqualUpTo(a, b, n)
    ensures (exists m | n <= m <= |fields| :: Branch(less, fields, idColumn, a, b, m))
       <==> BeforeFrom(less, fields, idColumn, a, b, n)
    decreases |fields| - n
  {
    var here := Branch(less, fields, idColumn, a, b, n);
    if n == |fields| {
      assert BeforeFrom(less, fields, idColumn, a, b, n) == here;
    } else if a.values[n] == b.values[n] {
      SomeBranchIsOrder(less, fields, idColumn, a, b, n + 1);
      assert !here;
    } else {
      assert BeforeFrom(less, fields, idColumn, a, b, n) == here;
      assert forall m | n < m <= |fields| :: !EqualUpTo(a, b, m);
    }
  }

  /** The filter selects exactly the rows strictly after the cursor. */
  lemma FilterSelectsRowsAfter(less: Order, fields: seq<SortField>, idColumn: string, key: Key, row: Row)
    requires Irreflexive(less) && |key.values| == |fields| && fields != []
    ensures Holds(FilterOf(fields, idColumn, key), row, less)
       <==> Before(less, fields, idColumn, key, RowKey(fields, idColumn, row))
  {
    FilterIsSomeBranch(less, fields, idColumn, key, row);
    SomeBranchIsOrder(less, fields, idColumn, key, RowKey(fields, idColumn, row), 0);
  }

  /** A row stands at its own column values. */
  lemma RowStandsAtItsColumns(fields: seq<SortField>, idColumn: string, row: Row)
    requires idColumn in row && forall i | 0 <= i < |fields| :: fields[i].spec.column in row
    ensures RowKey(fields, idColumn, row).id == row[idColumn]
    ensures forall i | 0 <= i < |fields| :: RowKey(fields, idColumn, row).values[i] == row[fields[i].spec.column]
  {
  }

  // ------------------------------------------------------------------- a strict total order

  lemma {:induction false} NotBeforeItself(less: Order, fields: seq<SortField>, idColumn: string, a: Key, n: nat)
    requires Irreflexive(less) && |a.values| == |fields| && n <= |fields| && fields != []
    ensures !BeforeFrom(less, fields, idColumn, a, a, n)
    decreases |fields| - n
  {
    if n < |fields| {
      NotBeforeItself(less, fields, idColumn, a, n + 1);
    }
  }

  lemma FieldTransitive(less: Order, column: string, direction: Direction, x: Value, y: Value, z: Value)
    requires Irreflexive(less) && Transitive(less)
    requires FieldBefore(less, column, direction, x, y) && FieldBefore(less, column, direction, y, z)
    ensures FieldBefore(less, column, direction, x, z) && x != z
  {
  }

  lemma {:induction false} BeforeIsTransitive(less: Order, fields: seq<SortField>, idColumn: string, a: Key, b: Key, c: Key,
                                              n: nat)
    requires Irreflexive(less) && Transitive(less) && fields != [] && n <= |fields|
    requires |a.values| == |b.values| == |c.values| == |fields|
    requires BeforeFrom(less, fields, idColumn, a, b, n) && BeforeFrom(less, fields, idColumn, b, c, n)
    ensures BeforeFrom(less, fields, idColumn, a, c, n)
    decreases |fields| - n
  {
    if n == |fields| {
      FieldTransitive(less, idColumn, fields[0].direction, a.id, b.id, c.id);
    } else if a.values[n] == b.values[n] && b.values[n] == c.values[n] {
      BeforeIsTransitive(less, fields, idColumn, a, b, c, n + 1);
    } else if a.values[n] != b.values[n] && b.values[n] != c.values[n] {
      FieldTransitive(less, fields[n].spec.column, fields[n].direction, a.values[n], b.values[n], c.values[n]);
    }
  }

  lemma {:induction false} BeforeIsTotal(less: Order, fields: seq<SortField>, idColumn: string, a: Key, b: Key, n: nat)
    requires Total(less) && |a.values| == |b.values| == |fields| && n <= |fields| && fields != [] && a.id != b.id
    ensures BeforeFrom(less, fields, idColumn, a, b, n) || BeforeFrom(less, fields, idColumn, b, a, n)
    decreases |fields| - n
  {
    if n < |fields| && a.values[n] == b.values[n] {
      BeforeIsTotal(less, fields, idColumn, a, b, n + 1);
    }
  }

  /** Rows with different ids are always ordered one way or the other, never both. */
  lemma OrderIsStrictAndTotal(less: Order, fields: seq<SortField>, idColumn: string, a: Key, b: Key)
    requires StrictTotalOrder(less) && |a.values| == |b.values| == |fields| && fields != [] && a.id != b.id
    ensures Before(less, fields, idColumn, a, b) <==> !Before(less, fields, idColumn, b, a)
  {
    BeforeIsTotal(less, fields, idColumn, a, b, 0);
    if Before(less, fields, idColumn, a, b) && Before(less, fields, idColumn, b, a) {
      BeforeIsTransitive(less, fields, idColumn, a, b, a, 0);
      NotBeforeItself(less, fields, idColumn, a, 0);
    }
  }

  // ------------------------------------------------------------------- the cursor of a row

  /** The value comes back from a cursor unchanged. */
  predicate Survives(value: Value, spec: SortSpec, iso: Iso) {
    ParseValue(SerializeValue(value, spec.serializer, iso), spec.parser, iso) == value
  }

  lemma {:induction false} ParsedValueOf(fields: seq<SortField>, values: map<string, Json>, iso: Iso, i: nat)
    requires Distinct(fields) && i < |fields|
    ensures ParsedValues(fields, values, iso)[fields[i].name]
         == ParseValue(Get(values, fields[i].name), fields[i].spec.parser, iso)
    decreases |fields|
  {
    if i < |fields| - 1 {
      ParsedValueOf(Front(fields), values, iso, i);
    }
  }

  /** A cursor minted from a row stands where the row stands exactly when every sort
      value of the row survives. */
  lemma MintedCursorStandsAtRow(fields: seq<SortField>, idColumn: string, row: Row, attributes: map<string, Value>, id: Json,
                                iso: Iso)
    requires Distinct(fields) && Covers(attributes, fields)
    requires Cell(row, idColumn) == Plain(id)
    requires forall i | 0 <= i < |fields| :: attributes[fields[i].name] == Cell(row, fields[i].spec.column)
    ensures CursorKey(fields, ValuesOf(fields, attributes, iso), id, iso) == RowKey(fields, idColumn, row)
       <==> forall i | 0 <= i < |fields| :: Survives(attributes[fields[i].name], fields[i].spec, iso)
  {
    var values := ValuesOf(fields, attributes, iso);
    var cursor, key := CursorKey(fields, values, id, iso), RowKey(fields, idColumn, row);
    forall i | 0 <= i < |fields|
      ensures cursor.values[i] == key.values[i] <==> Survives(attributes[fields[i].name], fields[i].spec, iso)
    {
      ParsedValueOf(fields, values, iso, i);
      ValuesHoldEveryField(fields, attributes, iso, i);
    }
  }
}
