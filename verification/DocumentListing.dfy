/** The document listing of the UI: one request reads batches after a moving cursor,
    drops what the caller may not read, and returns a page and a signed way on. The
    table is its ORDER BY listing at the time of the request. */
module DocumentListing {
  import opened Wrappers
  import opened Text
  import opened JsonValues
  import opened SortFields
  import opened Cursor
  import opened Keyset
  import opened Filtering
  import opened Paging

  const SCOPE := "ui.documents"

  /** The database's kinds of values; a comparison across kinds is an error. */
  datatype Kind = Timestamp | Textual | Numeric | Boolean | Structured

  function KindOf(value: Value): Kind {
    match value
    case Moment(_) => Timestamp
    case Plain(Text(_)) => Textual
    case Plain(Number(_)) => Numeric
    case Plain(Bool(_)) => Boolean
    case Plain(_) => Structured
  }

  /** What one listing is sorted and paged by; `str` is Python's, on values but text. */
  datatype Plan = Plan(fields: seq<SortField>, idColumn: string, kinds: string -> Kind, less: Order, iso: Iso,
                       str: Json -> string)

  /** Sort fields are columns of the same name, without parser or serializer, and ids are
      text. */
  ghost predicate Sound(plan: Plan) {
    && plan.fields != [] && Distinct(plan.fields)
    && (forall i | 0 <= i < |plan.fields| :: plan.fields[i].spec == SortSpec(plan.fields[i].name, None, None))
    && plan.kinds(plan.idColumn) == Textual
    && Irreflexive(plan.less) && Transitive(plan.less) && IsoLawful(plan.iso)
  }

  function KeyOf(plan: Plan): Row -> Key {
    row => RowKey(plan.fields, plan.idColumn, row)
  }

  function KeyOrder(plan: Plan): (Key, Key) -> bool {
    (a: Key, b: Key) => |a.values| == |b.values| == |plan.fields| && plan.fields != []
              && Before(plan.less, plan.fields, plan.idColumn, a, b)
  }

  /** The row has its sort columns and a plain id, each of its column's kind. */
  predicate Stored(plan: Plan, row: Row) {
    && Covers(row, plan.fields)
    && Cell(row, plan.idColumn).Plain? && KindOf(Cell(row, plan.idColumn)) == plan.kinds(plan.idColumn)
    && forall i | 0 <= i < |plan.fields| :: KindOf(Cell(row, plan.fields[i].name)) == plan.kinds(plan.fields[i].name)
  }

  predicate AllStored(plan: Plan, rows: seq<Row>) {
    forall i | 0 <= i < |rows| :: Stored(plan, rows[i])
  }

  /** No sort value of the row is text that reads as a date. */
  predicate Durable(plan: Plan, row: Row) {
    forall i | 0 <= i < |plan.fields| :: !LooksLikeDate(Cell(row, plan.fields[i].name), plan.iso)
  }

  /** What validation lets through. */
  predicate Validated(payload: map<string, Json>) {
    Get(payload, "values").Object? && "id" in payload
  }

  type Payload = p: map<string, Json> | Validated(p) witness map["values" := Object(map[]), "id" := Null]

  type Position = Option<Payload>

  /** The id as the route passes it on: made text, whatever it was. */
  function IdText(plan: Plan, payload: Payload): Json {
    if payload["id"].Text? then payload["id"] else Text(plan.str(payload["id"]))
  }

  function PayloadKey(plan: Plan, payload: Payload): (key: Key)
    ensures |key.values| == |plan.fields| && KindOf(key.id) == Textual
  {
    CursorKey(plan.fields, payload["values"].fields, IdText(plan, payload), plan.iso)
  }

  function PositionKey(plan: Plan, position: Position): Option<Key> {
    if position.None? then None else Some(PayloadKey(plan, position.value))
  }

  function RowPayload(plan: Plan, tenant: string, row: Row): Payload
    requires Covers(row, plan.fields) && Cell(row, plan.idColumn).Plain?
  {
    PayloadOf(SCOPE, tenant, plan.fields, row, Cell(row, plan.idColumn).json, plan.iso)
  }

  lemma OrderIsStrict(plan: Plan)
    requires Sound(plan)
    ensures StrictOrder(KeyOrder(plan))
  {
    var before := KeyOrder(plan);
    forall a ensures !before(a, a) {
      if |a.values| == |plan.fields| {
        NotBeforeItself(plan.less, plan.fields, plan.idColumn, a, 0);
      }
    }
    forall a, b, c | before(a, b) && before(b, c) ensures before(a, c) {
      BeforeIsTransitive(plan.less, plan.fields, plan.idColumn, a, b, c, 0);
    }
  }

  /** The payload minted from a row stands where the row stands when none of its sort
      values reads as a date. */
  lemma DurableRowPayload(plan: Plan, tenant: string, row: Row)
    requires Sound(plan) && Stored(plan, row) && Durable(plan, row)
    ensures PayloadKey(plan, RowPayload(plan, tenant, row)) == KeyOf(plan)(row)
  {
    forall i | 0 <= i < |plan.fields|
      ensures Survives(row[plan.fields[i].name], plan.fields[i].spec, plan.iso)
    {
      ValueRoundTrip(row[plan.fields[i].name], plan.iso);
    }
    MintedCursorStandsAtRow(plan.fields, plan.idColumn, row, row, Cell(row, plan.idColumn).json, plan.iso);
  }

  // ------------------------------------------------------------------- kinds of cursors

  /** Every sort value of the key is of its column's kind; its id is text in any case. */
  predicate Fits(plan: Plan, key: Key)
    requires |key.values| == |plan.fields|
  {
    forall i | 0 <= i < |plan.fields| :: KindOf(key.values[i]) == plan.kinds(plan.fields[i].spec.column)
  }

  predicate PositionFits(plan: Plan, position: Position) {
    position.Some? ==> Fits(plan, PayloadKey(plan, position.value))
  }

  lemma SerializedKind(value: Value, iso: Iso)
    requires IsoLawful(iso)
    ensures KindOf(ParseValue(SerializeValue(value, None, iso), None, iso)) == KindOf(value) <==> !LooksLikeDate(value, iso)
  {
    ValueRoundTrip(value, iso);
  }

  /** The cursor of a stored row is comparable with its columns exactly when no sort value
      of the row is text that reads as a date: such text comes back as an instant, and the
      next query compares a text column with a timestamp. */
  lemma DateLikeTextBreaksTheCursor(plan: Plan, tenant: string, row: Row)
    requires Sound(plan) && Stored(plan, row)
    ensures Fits(plan, PayloadKey(plan, RowPayload(plan, tenant, row))) <==> Durable(plan, row)
  {
    var values := ValuesOf(plan.fields, row, plan.iso);
    var key := PayloadKey(plan, RowPayload(plan, tenant, row));
    forall i | 0 <= i < |plan.fields|
      ensures KindOf(key.values[i]) == plan.kinds(plan.fields[i].spec.column)
         <==> !LooksLikeDate(Cell(row, plan.fields[i].name), plan.iso)
    {
      ParsedValueOf(plan.fields, values, plan.iso, i);
      ValuesHoldEveryField(plan.fields, row, plan.iso, i);
      SerializedKind(row[plan.fields[i].name], plan.iso);
    }
  }

  /** Where no text column is sorted by, as with creation and update times, every row's
      cursor is good. */
  lemma OtherColumnsAreDurable(plan: Plan, row: Row)
    requires Stored(plan, row)
    requires forall i | 0 <= i < |plan.fields| :: !plan.kinds(plan.fields[i].name).Textual?
    ensures Durable(plan, row)
  {
  }

  // ------------------------------------------------------------------- the query

  predicate Matches(plan: Plan, row: Row, filter: Option<Condition>) {
    filter.None? || Holds(filter.value, row, plan.less)
  }

  /** Every comparison is between a column and a value of its kind. */
  predicate Comparable(kinds: string -> Kind, condition: Condition) {
    match condition
    case Equals(column, value) => KindOf(value) == kinds(column)
    case Greater(column, value) => KindOf(value) == kinds(column)
    case Less(column, value) => KindOf(value) == kinds(column)
    case All(cs) => forall i | 0 <= i < |cs| :: Comparable(kinds, cs[i])
    case Any(cs) => forall i | 0 <= i < |cs| :: Comparable(kinds, cs[i])
  }

  predicate FilterComparable(plan: Plan, filter: Option<Condition>) {
    filter.Some? ==> Comparable(plan.kinds, filter.value)
  }

  /** SELECT ... WHERE outer AND inner ORDER BY ... LIMIT n; None is a database error. */
  function Query(plan: Plan, listing: seq<Row>, outer: Option<Condition>, inner: Option<Condition>, n: nat): Option<seq<Row>> {
    if !FilterComparable(plan, outer) || !FilterComparable(plan, inner) then None
    else Some(First(Keep(Keep(listing, row => Matches(plan, row, outer)), row => Matches(plan, row, inner)), n))
  }

  function PositionFilter(plan: Plan, position: Position): Option<Condition>
    requires plan.fields != []
  {
    if position.None? then None else Some(FilterOf(plan.fields, plan.idColumn, PayloadKey(plan, position.value)))
  }

  method FilterAt(plan: Plan, position: Position) returns (filter: Option<Condition>)
    requires plan.fields != []
    ensures filter == PositionFilter(plan, position)
  {
    if position.None? {
      return None;
    }
    var built := BuildCursorFilter(plan.fields, position.value["values"].fields, IdText(plan, position.value),
                                   plan.idColumn, plan.iso);
    filter := Some(built.value);
  }

  lemma AllComparable(kinds: string -> Kind, prefix: seq<Condition>, last: Condition)
    ensures Comparable(kinds, All(prefix + [last])) <==>
              (forall p | 0 <= p < |prefix| :: Comparable(kinds, prefix[p])) && Comparable(kinds, last)
  {
    var cs := prefix + [last];
    assert cs[|prefix|] == last;
    assert forall p | 0 <= p < |prefix| :: cs[p] == prefix[p];
  }

  lemma BranchComparable(plan: Plan, key: Key, n: nat)
    requires plan.fields != [] && |key.values| == |plan.fields| && n <= |plan.fields|
    ensures Comparable(plan.kinds, BranchCondition(plan.fields, plan.idColumn, key, n)) <==>
              && (forall p | 0 <= p < n :: KindOf(key.values[p]) == plan.kinds(plan.fields[p].spec.column))
              && if n == |plan.fields| then KindOf(key.id) == plan.kinds(plan.idColumn)
                 else KindOf(key.values[n]) == plan.kinds(plan.fields[n].spec.column)
  {
    var prefix := Prefix(plan.fields, key, n);
    var beyond := if n == |plan.fields| then Compare(plan.idColumn, plan.fields[0].direction, key.id)
                  else Compare(plan.fields[n].spec.column, plan.fields[n].direction, key.values[n]);
    AllComparable(plan.kinds, prefix, beyond);
    forall p | 0 <= p < n
      ensures Comparable(plan.kinds, prefix[p]) <==> KindOf(key.values[p]) == plan.kinds(plan.fields[p].spec.column)
    {
    }
  }

  /** The filter of a position is comparable exactly when the position fits. */
  lemma FilterComparableExactly(plan: Plan, position: Position)
    requires plan.fields != [] && plan.kinds(plan.idColumn) == Textual
    ensures FilterComparable(plan, PositionFilter(plan, position)) <==> PositionFits(plan, position)
  {
    if position.Some? {
      var key, m := PayloadKey(plan, position.value), |plan.fields|;
      var filter := FilterOf(plan.fields, plan.idColumn, key);
      BranchComparable(plan, key, m);
      assert filter.disjuncts[m] == BranchCondition(plan.fields, plan.idColumn, key, m);
      forall n | 0 <= n <= m ensures Fits(plan, key) ==> Comparable(plan.kinds, filter.disjuncts[n]) {
        BranchComparable(plan, key, n);
      }
    }
  }

  lemma FilteredIsAfter(plan: Plan, rows: seq<Row>, position: Position)
    requires Sound(plan)
    ensures Keep(rows, row => Matches(plan, row, PositionFilter(plan, position)))
         == After(rows, PositionKey(plan, position), KeyOf(plan), KeyOrder(plan))
  {
    var filter, cursor := PositionFilter(plan, position), PositionKey(plan, position);
    forall i | 0 <= i < |rows|
      ensures Matches(plan, rows[i], filter) == Follows(rows[i], cursor, KeyOf(plan), KeyOrder(plan))
    {
      if position.Some? {
        FilterSelectsRowsAfter(plan.less, plan.fields, plan.idColumn, cursor.value, rows[i]);
      }
    }
    KeepAlike(rows, row => Matches(plan, row, filter), row => Follows(row, cursor, KeyOf(plan), KeyOrder(plan)));
  }

  function Rest(plan: Plan, listing: seq<Row>, cursor: Position): seq<Row> {
    After(listing, PositionKey(plan, cursor), KeyOf(plan), KeyOrder(plan))
  }

  /** What a position leaves of the rows after the cursor. */
  function Unread(plan: Plan, listing: seq<Row>, cursor: Position, position: Position): seq<Row> {
    Rest(plan, Rest(plan, listing, cursor), position)
  }

  lemma QueryReadsRest(plan: Plan, listing: seq<Row>, cursor: Position, position: Position, n: nat)
    requires Sound(plan)
    ensures Query(plan, listing, PositionFilter(plan, cursor), PositionFilter(plan, position), n)
         == if PositionFits(plan, cursor) && PositionFits(plan, position)
            then Some(First(Unread(plan, listing, cursor, position), n)) else None
  {
    FilterComparableExactly(plan, cursor);
    FilterComparableExactly(plan, position);
    FilteredIsAfter(plan, listing, cursor);
    FilteredIsAfter(plan, Rest(plan, listing, cursor), position);
  }

  lemma RestAtStart(plan: Plan, listing: seq<Row>, cursor: Position)
    ensures Unread(plan, listing, cursor, cursor) == Rest(plan, listing, cursor)
  {
    AfterAgain(listing, PositionKey(plan, cursor), KeyOf(plan), KeyOrder(plan));
  }

  lemma RestIsSortedAndStored(plan: Plan, listing: seq<Row>, cursor: Position)
    requires Sorted(listing, KeyOf(plan), KeyOrder(plan)) && AllStored(plan, listing)
    ensures Sorted(Rest(plan, listing, cursor), KeyOf(plan), KeyOrder(plan))
    ensures AllStored(plan, Rest(plan, listing, cursor))
  {
    var p: Row -> bool := row => Follows(row, PositionKey(plan, cursor), KeyOf(plan), KeyOrder(plan));
    KeepSorted(listing, p, KeyOf(plan), KeyOrder(plan));
    var at := KeepIsSubsequence(listing, p);
  }

  // ------------------------------------------------------------------- one request

  /** What the request should answer: the page of the rows the caller may read. */
  function ExpectedPage(plan: Plan, listing: seq<Row>, cursor: Position, limit: nat, visible: Row -> bool): Page<Row> {
    PageOf(Keep(listing, visible), PositionKey(plan, cursor), limit, KeyOf(plan), KeyOrder(plan))
  }

  lemma PageOfVisibleRest(plan: Plan, listing: seq<Row>, cursor: Position, limit: nat, visible: Row -> bool, kept: seq<Row>)
    requires kept <= Keep(Rest(plan, listing, cursor), visible)
    requires |kept| > limit || kept == Keep(Rest(plan, listing, cursor), visible)
    ensures ExpectedPage(plan, listing, cursor, limit, visible) == Page(First(kept, limit), |kept| > limit)
  {
    KeepCommutes(listing, visible, row => Follows(row, PositionKey(plan, cursor), KeyOf(plan), KeyOrder(plan)));
    PageFromPrefix(Keep(Rest(plan, listing, cursor), visible), kept, limit);
  }

  /** The position, if it fits, stands before the unread rows. */
  predicate StandsBefore(plan: Plan, listing: seq<Row>, cursor: Position, position: Position, unread: seq<Row>) {
    PositionFits(plan, position) ==> Unread(plan, listing, cursor, position) == unread
  }

  /** One batch after the position: one row more than a page holds. */
  method ReadBatch(plan: Plan, listing: seq<Row>, cursor: Position, outer: Option<Condition>, position: Position, n: nat,
                   ghost unread: seq<Row>)
    returns (rows: Option<seq<Row>>)
    requires Sound(plan) && outer == PositionFilter(plan, cursor) && StandsBefore(plan, listing, cursor, position, unread)
    ensures rows == if PositionFits(plan, cursor) && PositionFits(plan, position) then Some(First(unread, n)) else None
  {
    var inner := FilterAt(plan, position);
    rows := Query(plan, listing, outer, inner, n);
    QueryReadsRest(plan, listing, cursor, position, n);
  }

  method PayloadOfRow(plan: Plan, tenant: string, row: Row) returns (payload: Payload)
    requires Stored(plan, row)
    ensures payload == RowPayload(plan, tenant, row)
  {
    payload := BuildCursorPayload(SCOPE, tenant, plan.fields, row, Cell(row, plan.idColumn).json, plan.iso);
  }

  lemma UnreadIsSortedAndStored(plan: Plan, listing: seq<Row>, cursor: Position, position: Position)
    requires Sorted(listing, KeyOf(plan), KeyOrder(plan)) && AllStored(plan, listing)
    ensures Sorted(Unread(plan, listing, cursor, position), KeyOf(plan), KeyOrder(plan))
    ensures AllStored(plan, Unread(plan, listing, cursor, position))
  {
    RestIsSortedAndStored(plan, listing, cursor);
    RestIsSortedAndStored(plan, Rest(plan, listing, cursor), position);
  }

  lemma UnreadRowIsStored(plan: Plan, listing: seq<Row>, cursor: Position, position: Position, unread: seq<Row>, k: nat)
    requires Sorted(listing, KeyOf(plan), KeyOrder(plan)) && AllStored(plan, listing)
    requires StandsBefore(plan, listing, cursor, position, unread) && PositionFits(plan, position) && k < |unread|
    ensures Stored(plan, unread[k])
  {
    UnreadIsSortedAndStored(plan, listing, cursor, position);
  }

  /** Moving on to an unread row leaves the rows behind it; its cursor fits unless one of
      its sort values reads as a date. */
  lemma MoveToUnreadRow(plan: Plan, listing: seq<Row>, tenant: string, cursor: Position, position: Position,
                        unread: seq<Row>, k: nat, next: Position)
    requires Sound(plan) && Sorted(listing, KeyOf(plan), KeyOrder(plan)) && AllStored(plan, listing)
    requires StandsBefore(plan, listing, cursor, position, unread) && PositionFits(plan, position) && k < |unread|
    requires Stored(plan, unread[k]) && next == Some(RowPayload(plan, tenant, unread[k]))
    ensures PositionFits(plan, next) <==> Durable(plan, unread[k])
    ensures StandsBefore(plan, listing, cursor, next, unread[k + 1..])
  {
    DateLikeTextBreaksTheCursor(plan, tenant, unread[k]);
    if Durable(plan, unread[k]) {
      UnreadIsSortedAndStored(plan, listing, cursor, position);
      OrderIsStrict(plan);
      DurableRowPayload(plan, tenant, unread[k]);
      AfterRowIsRest(unread, k, KeyOf(plan), KeyOrder(plan));
      AfterListedRow(Rest(plan, listing, cursor), PositionKey(plan, position), k, KeyOf(plan), KeyOrder(plan));
    }
  }

  /** Reading batches of `n` rows until `n` are kept comes to a full batch that leaves fewer
      and ends with a row whose cursor does not fit. */
  predicate BreaksOff(plan: Plan, unread: seq<Row>, n: nat, kept: nat, visible: Row -> bool)
    decreases |unread|
  {
    && 0 < n <= |unread| && kept + |Keep(unread[..n], visible)| < n
    && (!Durable(plan, unread[n - 1]) || BreaksOff(plan, unread[n..], n, kept + |Keep(unread[..n], visible)|, visible))
  }

  /** From here on a query will be a database error; `fits` tells whether the next one is
      not. */
  predicate Fails(plan: Plan, fits: bool, unread: seq<Row>, n: nat, kept: nat, visible: Row -> bool) {
    kept < n && (!fits || BreaksOff(plan, unread, n, kept, visible))
  }

  lemma FullBatchFails(plan: Plan, unread: seq<Row>, n: nat, kept: nat, visible: Row -> bool)
    requires kept < n <= |unread|
    ensures Fails(plan, true, unread, n, kept, visible)
       <==> Fails(plan, Durable(plan, unread[n - 1]), unread[n..], n, kept + |Keep(unread[..n], visible)|, visible)
  {
  }

  lemma LastBatchFits(plan: Plan, unread: seq<Row>, n: nat, kept: nat, visible: Row -> bool)
    requires |unread| < n
    ensures !Fails(plan, true, unread, n, kept, visible)
  {
  }

  lemma {:induction false} DurableRowsNeverBreakOff(plan: Plan, unread: seq<Row>, n: nat, kept: nat, visible: Row -> bool)
    requires forall i | 0 <= i < |unread| :: Durable(plan, unread[i])
    ensures !BreaksOff(plan, unread, n, kept, visible)
    decreases |unread|
  {
    if 0 < n <= |unread| {
      DurableRowsNeverBreakOff(plan, unread[n..], n, kept + |Keep(unread[..n], visible)|, visible);
    }
  }

  lemma BatchIsPrefix(unread: seq<Row>, n: nat, visible: Row -> bool)
    ensures var rows := First(unread, n);
            && Keep(unread, visible) == Keep(rows, visible) + Keep(unread[|rows|..], visible)
            && (|rows| < n ==> unread[|rows|..] == [])
            && (rows != [] ==> Last(rows) == unread[|rows| - 1])
  {
    KeepPrefixOfKeep(unread, |First(unread, n)|, visible);
  }

  /** Rows kept so far and readable rows still unread make up the readable rest. */
  predicate Accounts(shown: seq<Row>, authorized: seq<Row>, unread: seq<Row>, visible: Row -> bool) {
    shown == authorized + Keep(unread, visible)
  }

  lemma AccountsStep(shown: seq<Row>, authorized: seq<Row>, unread: seq<Row>, n: nat, visible: Row -> bool, rows: seq<Row>)
    requires Accounts(shown, authorized, unread, visible) && rows == First(unread, n)
    ensures Accounts(shown, authorized + Keep(rows, visible), unread[|rows|..], visible)
    ensures |rows| < n ==> unread[|rows|..] == []
  {
    BatchIsPrefix(unread, n, visible);
    Associate(authorized, Keep(rows, visible), Keep(unread[|rows|..], visible));
  }

  /** How a turn of the loop ends: a database error, the last batch, or a position to go
      on from. */
  datatype Turn = Failed | Ended(kept: seq<Row>) | GoOn(kept: seq<Row>, position: Payload)

  /** The loop's bookkeeping: what is kept of what is shown, what is unread, and whether
      the request fails in the end. */
  predicate Progress(plan: Plan, fits: bool, n: nat, visible: Row -> bool, kept: seq<Row>, shown: seq<Row>,
                     unread: seq<Row>, fails: bool)
  {
    Accounts(shown, kept, unread, visible) && (fails <==> Fails(plan, fits, unread, n, |kept|, visible))
  }

  lemma FullBatch(plan: Plan, fits: bool, n: nat, visible: Row -> bool, kept: seq<Row>, shown: seq<Row>,
                  unread: seq<Row>, fails: bool, rows: seq<Row>, next: bool)
    requires Progress(plan, fits, n, visible, kept, shown, unread, fails) && fits && |kept| < n
    requires rows == First(unread, n) && |rows| == n && (next <==> Durable(plan, rows[n - 1]))
    ensures Progress(plan, next, n, visible, kept + Keep(rows, visible), shown, unread[n..], fails)
  {
    assert rows == unread[..n];
    AccountsStep(shown, kept, unread, n, visible, rows);
    FullBatchFails(plan, unread, n, |kept|, visible);
  }

  lemma LastBatch(plan: Plan, fits: bool, n: nat, visible: Row -> bool, kept: seq<Row>, shown: seq<Row>,
                  unread: seq<Row>, fails: bool, rows: seq<Row>)
    requires Progress(plan, fits, n, visible, kept, shown, unread, fails) && fits
    requires rows == First(unread, n) && |rows| < n
    ensures kept + Keep(rows, visible) == shown && !fails
  {
    LastBatchFits(plan, unread, n, |kept|, visible);
  }

  lemma Enough(plan: Plan, fits: bool, n: nat, visible: Row -> bool, kept: seq<Row>, shown: seq<Row>, unread: seq<Row>,
               fails: bool)
    requires Progress(plan, fits, n, visible, kept, shown, unread, fails)
    ensures |kept| >= n ==> kept <= shown && !fails
    ensures |kept| < n && !fits ==> fails
  {
  }

  lemma Begin(plan: Plan, fits: bool, n: nat, visible: Row -> bool, unread: seq<Row>)
    requires n > 0
    ensures Progress(plan, fits, n, visible, [], Keep(unread, visible), unread,
                     !fits || BreaksOff(plan, unread, n, 0, visible))
  {
    assert [] + Keep(unread, visible) == Keep(unread, visible);
  }

  /** The position behind the last row of a full batch. */
  method Advance(plan: Plan, listing: seq<Row>, tenant: string, cursor: Position, position: Position, row: Row,
                 ghost unread: seq<Row>, ghost k: nat)
    returns (payload: Payload)
    requires Sound(plan) && Sorted(listing, KeyOf(plan), KeyOrder(plan)) && AllStored(plan, listing)
    requires StandsBefore(plan, listing, cursor, position, unread) && PositionFits(plan, position)
    requires k < |unread| && unread[k] == row
    ensures PositionFits(plan, Some(payload)) <==> Durable(plan, unread[k])
    ensures StandsBefore(plan, listing, cursor, Some(payload), unread[k + 1..])
  {
    UnreadRowIsStored(plan, listing, cursor, position, unread, k);
    payload := PayloadOfRow(plan, tenant, row);
    MoveToUnreadRow(plan, listing, tenant, cursor, position, unread, k, Some(payload));
  }

  method AdvanceBehind(plan: Plan, listing: seq<Row>, tenant: string, cursor: Position, position: Position, n: nat,
                       visible: Row -> bool, kept: seq<Row>, rows: seq<Row>, ghost shown: seq<Row>,
                       ghost unread: seq<Row>, ghost fails: bool)
    returns (payload: Payload)
    requires Sound(plan) && Sorted(listing, KeyOf(plan), KeyOrder(plan)) && AllStored(plan, listing)
    requires StandsBefore(plan, listing, cursor, position, unread) && PositionFits(plan, position)
    requires Progress(plan, PositionFits(plan, position), n, visible, kept, shown, unread, fails) && |kept| < n
    requires rows == First(unread, n) && |rows| == n
    ensures StandsBefore(plan, listing, cursor, Some(payload), unread[n..])
    ensures Progress(plan, PositionFits(plan, Some(payload)), n, visible, kept + Keep(rows, visible), shown, unread[n..], fails)
  {
    payload := Advance(plan, listing, tenant, cursor, position, rows[n - 1], unread, n - 1);
    FullBatch(plan, PositionFits(plan, position), n, visible, kept, shown, unread, fails, rows,
              PositionFits(plan, Some(payload)));
  }

  /** One turn of the loop: a batch is read and what is readable of it kept; a full
      batch also moves the position behind its last row. */
  method ReadOn(plan: Plan, listing: seq<Row>, tenant: string, cursor: Position, outer: Option<Condition>, position: Position,
                n: nat, visible: Row -> bool, kept: seq<Row>, ghost shown: seq<Row>, ghost unread: seq<Row>, ghost fails: bool)
    returns (turn: Turn, ghost rest: seq<Row>)
    requires Sound(plan) && Sorted(listing, KeyOf(plan), KeyOrder(plan)) && AllStored(plan, listing)
    requires outer == PositionFilter(plan, cursor) && |kept| < n
    requires StandsBefore(plan, listing, cursor, position, unread)
    requires Progress(plan, PositionFits(plan, position), n, visible, kept, shown, unread, fails)
    ensures turn.Failed? <==> !PositionFits(plan, cursor) || !PositionFits(plan, position)
    ensures turn.Ended? ==> turn.kept == shown && !fails
    ensures turn.GoOn? ==>
              && |rest| < |unread| && StandsBefore(plan, listing, cursor, Some(turn.position), rest)
              && Progress(plan, PositionFits(plan, Some(turn.position)), n, visible, turn.kept, shown, rest, fails)
  {
    rest := unread;
    var batch := ReadBatch(plan, listing, cursor, outer, position, n, unread);
    if batch.None? {
      return Failed, rest;
    }
    var rows := batch.value;
    if |rows| < n {
      LastBatch(plan, PositionFits(plan, position), n, visible, kept, shown, unread, fails, rows);
      return Ended(kept + Keep(rows, visible)), rest;
    }
    rest := unread[n..];
    var payload := AdvanceBehind(plan, listing, tenant, cursor, position, n, visible, kept, rows, shown, unread, fails);
    turn := GoOn(kept + Keep(rows, visible), payload);
  }

  method ReadBatches(plan: Plan, listing: seq<Row>, tenant: string, cursor: Position, n: nat, visible: Row -> bool,
                     ghost shown: seq<Row>, ghost rest: seq<Row>, ghost fails: bool)
    returns (authorized: Option<seq<Row>>)
    requires Sound(plan) && Sorted(listing, KeyOf(plan), KeyOrder(plan)) && AllStored(plan, listing)
    requires StandsBefore(plan, listing, cursor, cursor, rest) && (PositionFits(plan, cursor) || fails)
    requires Progress(plan, PositionFits(plan, cursor), n, visible, [], shown, rest, fails)
    ensures authorized.None? <==> fails
    ensures authorized.Some? ==> authorized.value <= shown && (|authorized.value| >= n || authorized.value == shown)
  {
    var outer := FilterAt(plan, cursor);
    var position, kept := cursor, [];
    ghost var unread := rest;
    while |kept| < n
      invariant StandsBefore(plan, listing, cursor, position, unread)
      invariant Progress(plan, PositionFits(plan, position), n, visible, kept, shown, unread, fails)
      decreases |unread|
    {
      Enough(plan, PositionFits(plan, position), n, visible, kept, shown, unread, fails);
      var turn, left := ReadOn(plan, listing, tenant, cursor, outer, position, n, visible, kept, shown, unread, fails);
      if turn.Failed? {
        return None;
      }
      if turn.Ended? {
        return Some(turn.kept);
      }
      kept, position, unread := turn.kept, Some(turn.position), left;
    }
    Enough(plan, PositionFits(plan, position), n, visible, kept, shown, unread, fails);
    return Some(kept);
  }

  /** The readable rows after the cursor, batch by batch: all of them, or more than a
      page of the first ones. A database error comes exactly of a cursor that does not
      fit, or of going on from a row with a sort value that reads as a date. */
  method AuthorizedRows(plan: Plan, listing: seq<Row>, tenant: string, cursor: Position, limit: nat, visible: Row -> bool)
    returns (authorized: Option<seq<Row>>)
    requires Sound(plan) && Sorted(listing, KeyOf(plan), KeyOrder(plan)) && AllStored(plan, listing)
    ensures authorized.Some? ==>
              && authorized.value <= Keep(Rest(plan, listing, cursor), visible)
              && (|authorized.value| > limit || authorized.value == Keep(Rest(plan, listing, cursor), visible))
    ensures authorized.None? <==>
              !PositionFits(plan, cursor) || BreaksOff(plan, Rest(plan, listing, cursor), limit + 1, 0, visible)
  {
    ghost var rest := Rest(plan, listing, cursor);
    RestAtStart(plan, listing, cursor);
    Begin(plan, PositionFits(plan, cursor), limit + 1, visible, rest);
    authorized := ReadBatches(plan, listing, tenant, cursor, limit + 1, visible, Keep(rest, visible), rest,
                              !PositionFits(plan, cursor) || BreaksOff(plan, rest, limit + 1, 0, visible));
  }

  datatype Answer = Answer(rows: seq<Row>, next: Position)

  /** When it answers, the page holds the first `limit` readable rows after the cursor, and
      a next cursor exactly when more readable rows follow: the payload of the page's last
      row. It fails, with a database error, exactly for a cursor that does not fit, or where
      it has to go on from a row with a sort value that reads as a date. */
  method ListDocuments(plan: Plan, listing: seq<Row>, tenant: string, cursor: Position, limit: nat, visible: Row -> bool)
    returns (answer: Option<Answer>)
    requires Sound(plan) && Sorted(listing, KeyOf(plan), KeyOrder(plan)) && AllStored(plan, listing) && limit > 0
    ensures answer.Some? ==> Correct(plan, listing, tenant, cursor, limit, visible, answer.value)
    ensures answer.None? <==>
              !PositionFits(plan, cursor) || BreaksOff(plan, Rest(plan, listing, cursor), limit + 1, 0, visible)
  {
    var authorized := AuthorizedRows(plan, listing, tenant, cursor, limit, visible);
    if authorized.None? {
      return None;
    }
    PageOfVisibleRest(plan, listing, cursor, limit, visible, authorized.value);
    if |authorized.value| > limit {
      KeptIsStored(plan, listing, cursor, visible, limit - 1);
    }
    var page := CutPage(plan, tenant, authorized.value, limit);
    return Some(page);
  }

  /** The first `limit` rows, and the way on from the last of them if there are more. */
  method CutPage(plan: Plan, tenant: string, authorized: seq<Row>, limit: nat) returns (answer: Answer)
    requires limit > 0 && (|authorized| > limit ==> Stored(plan, authorized[limit - 1]))
    ensures answer.rows == First(authorized, limit) && (answer.next.Some? <==> |authorized| > limit)
    ensures |authorized| > limit ==>
              && Last(answer.rows) == authorized[limit - 1]
              && answer.next.value == RowPayload(plan, tenant, authorized[limit - 1])
  {
    var more := |authorized| > limit;
    var rows := First(authorized, limit);
    var next: Position := None;
    if more && |rows| > 0 {
      var payload := PayloadOfRow(plan, tenant, rows[|rows| - 1]);
      next := Some(payload);
    }
    return Answer(rows, next);
  }

  /** The answer is the page asked for, and goes on from its last row. */
  predicate Correct(plan: Plan, listing: seq<Row>, tenant: string, cursor: Position, limit: nat, visible: Row -> bool,
                    answer: Answer)
  {
    && Page(answer.rows, answer.next.Some?) == ExpectedPage(plan, listing, cursor, limit, visible)
    && (answer.next.Some? ==>
          && answer.rows != [] && Stored(plan, Last(answer.rows))
          && answer.next.value == RowPayload(plan, tenant, Last(answer.rows)))
  }

  lemma KeptIsStored(plan: Plan, listing: seq<Row>, cursor: Position, visible: Row -> bool, k: nat)
    requires Sorted(listing, KeyOf(plan), KeyOrder(plan)) && AllStored(plan, listing)
    requires k < |Keep(Rest(plan, listing, cursor), visible)|
    ensures Stored(plan, Keep(Rest(plan, listing, cursor), visible)[k])
  {
    RestIsSortedAndStored(plan, listing, cursor);
    var at := KeepIsSubsequence(Rest(plan, listing, cursor), visible);
  }

  // ------------------------------------------------------------------- a whole session

  /** One request of a session and what it answered. */
  datatype Request = Request(listing: seq<Row>, visible: Row -> bool, cursor: Position, answer: Answer)

  /** The rows the caller could read at the time. */
  function Shown(r: Request): seq<Row> {
    Keep(r.listing, r.visible)
  }

  /** The request was answered, as the contract of ListDocuments says. */
  ghost predicate Answered(plan: Plan, tenant: string, limit: nat, r: Request) {
    && Sorted(r.listing, KeyOf(plan), KeyOrder(plan)) && AllStored(plan, r.listing)
    && PositionFits(plan, r.cursor)
    && Correct(plan, r.listing, tenant, r.cursor, limit, r.visible, r.answer)
  }

  ghost predicate GoesOn(r: Request, next: Request) {
    r.answer.next.Some? && next.cursor == r.answer.next
  }

  /** A client that starts without a cursor and sends back each next cursor, as long as it
      is answered; the table and what the client may read change freely between requests. */
  ghost predicate Session(plan: Plan, tenant: string, limit: nat, requests: seq<Request>) {
    && (forall i | 0 <= i < |requests| :: Answered(plan, tenant, limit, requests[i]))
    && (forall i | 0 < i < |requests| :: GoesOn(requests[i - 1], requests[i]))
    && (requests != [] ==> requests[0].cursor == None)
  }

  ghost function VisitOf(plan: Plan, r: Request): Visit<Row, Key> {
    Visit(PositionKey(plan, r.cursor), Shown(r), Page(r.answer.rows, r.answer.next.Some?))
  }

  ghost function Visits(plan: Plan, requests: seq<Request>): (visits: seq<Visit<Row, Key>>)
    ensures |visits| == |requests| && forall i | 0 <= i < |requests| :: visits[i] == VisitOf(plan, requests[i])
  {
    seq(|requests|, i requires 0 <= i < |requests| => VisitOf(plan, requests[i]))
  }

  lemma AnsweredIsServed(plan: Plan, tenant: string, limit: nat, r: Request)
    requires Answered(plan, tenant, limit, r)
    ensures Served(VisitOf(plan, r), limit, KeyOf(plan), KeyOrder(plan))
  {
    KeepSorted(r.listing, r.visible, KeyOf(plan), KeyOrder(plan));
  }

  /** A next cursor that is answered stands at the row it was minted from. */
  lemma NextIsLinked(plan: Plan, tenant: string, limit: nat, r: Request, next: Request)
    requires Sound(plan) && Answered(plan, tenant, limit, r) && Answered(plan, tenant, limit, next) && GoesOn(r, next)
    ensures Linked(VisitOf(plan, r), VisitOf(plan, next), KeyOf(plan))
  {
    DateLikeTextBreaksTheCursor(plan, tenant, Last(r.answer.rows));
    DurableRowPayload(plan, tenant, Last(r.answer.rows));
  }

  lemma SessionIsRun(plan: Plan, tenant: string, limit: nat, requests: seq<Request>)
    requires Sound(plan) && Session(plan, tenant, limit, requests)
    ensures Run(Visits(plan, requests), limit, KeyOf(plan), KeyOrder(plan))
  {
    forall i | 0 <= i < |requests|
      ensures Served(VisitOf(plan, requests[i]), limit, KeyOf(plan), KeyOrder(plan))
    {
      AnsweredIsServed(plan, tenant, limit, requests[i]);
    }
    forall i | 0 < i < |requests|
      ensures Linked(VisitOf(plan, requests[i - 1]), VisitOf(plan, requests[i]), KeyOf(plan))
    {
      NextIsLinked(plan, tenant, limit, requests[i - 1], requests[i]);
    }
  }

  function Answers(requests: seq<Request>): seq<Row> {
    if requests == [] then [] else Answers(Front(requests)) + Last(requests).answer.rows
  }

  lemma {:induction false} AnswersAreCollected(plan: Plan, requests: seq<Request>)
    ensures Answers(requests) == Collected(Visits(plan, requests))
  {
    if requests != [] {
      AnswersAreCollected(plan, Front(requests));
      assert Front(Visits(plan, requests)) == Visits(plan, Front(requests));
    }
  }

  /** A session's answers strictly increase in the listing's order, whatever happens to
      the table between requests. */
  lemma SessionNeverRepeats(plan: Plan, tenant: string, limit: nat, requests: seq<Request>)
    requires Sound(plan) && Session(plan, tenant, limit, requests)
    ensures Sorted(Answers(requests), KeyOf(plan), KeyOrder(plan))
  {
    SessionIsRun(plan, tenant, limit, requests);
    OrderIsStrict(plan);
    AnswersAreCollected(plan, requests);
    PagesStrictlyIncrease(Visits(plan, requests), limit, KeyOf(plan), KeyOrder(plan));
  }

  /** A session that received no further cursor has answered, exactly once, every row
      that each of its requests found in the table and readable. */
  lemma FinishedSessionLosesNothing(plan: Plan, tenant: string, limit: nat, requests: seq<Request>, row: Row)
    returns (k: nat)
    requires Sound(plan) && Session(plan, tenant, limit, requests) && limit > 0
    requires requests != [] && Last(requests).answer.next.None?
    requires forall i | 0 <= i < |requests| :: row in Shown(requests[i])
    ensures k < |Answers(requests)| && Answers(requests)[k] == row
    ensures forall j | 0 <= j < |Answers(requests)| && j != k :: Answers(requests)[j] != row
  {
    SessionIsRun(plan, tenant, limit, requests);
    OrderIsStrict(plan);
    AnswersAreCollected(plan, requests);
    k := NothingLostNothingRepeated(Visits(plan, requests), limit, KeyOf(plan), KeyOrder(plan), row);
  }

  lemma VisitsShow(plan: Plan, requests: seq<Request>, shown: seq<Row>)
    requires forall i | 0 <= i < |requests| :: Shown(requests[i]) == shown
    ensures AllShow(Visits(plan, requests), shown)
  {
  }

  /** Over a fixed table and fixed rights a session ends after one request per started
      page, and its answers are then exactly the readable rows in order. */
  lemma SessionOfFixedTable(plan: Plan, tenant: string, limit: nat, requests: seq<Request>, shown: seq<Row>)
    requires Sound(plan) && Session(plan, tenant, limit, requests) && limit > 0 && requests != []
    requires forall i | 0 <= i < |requests| :: Shown(requests[i]) == shown
    ensures |requests| > 1 ==> (|requests| - 1) * limit < |shown|
    ensures Last(requests).answer.next.None? <==> |requests| * limit >= |shown|
    ensures Last(requests).answer.next.None? ==> Answers(requests) == shown
  {
    SessionIsRun(plan, tenant, limit, requests);
    OrderIsStrict(plan);
    AnswersAreCollected(plan, requests);
    VisitsShow(plan, requests, shown);
    PagingEndsWithTheTable(Visits(plan, requests), shown, limit, KeyOf(plan), KeyOrder(plan));
  }

  /** Sorted by columns other than text, a session is never refused: every cursor it is
      given fits, and no row stands in the way of an answer. */
  lemma OtherColumnsNeverFail(plan: Plan, tenant: string, limit: nat, r: Request, listing: seq<Row>, visible: Row -> bool)
    requires Sound(plan) && Answered(plan, tenant, limit, r)
    requires Sorted(listing, KeyOf(plan), KeyOrder(plan)) && AllStored(plan, listing)
    requires forall i | 0 <= i < |plan.fields| :: !plan.kinds(plan.fields[i].name).Textual?
    ensures PositionFits(plan, r.answer.next)
    ensures !BreaksOff(plan, Rest(plan, listing, r.answer.next), limit + 1, 0, visible)
  {
    if r.answer.next.Some? {
      OtherColumnsAreDurable(plan, Last(r.answer.rows));
      DateLikeTextBreaksTheCursor(plan, tenant, Last(r.answer.rows));
    }
    RestIsSortedAndStored(plan, listing, r.answer.next);
    var rest := Rest(plan, listing, r.answer.next);
    forall i | 0 <= i < |rest| ensures Durable(plan, rest[i]) {
      OtherColumnsAreDurable(plan, rest[i]);
    }
    DurableRowsNeverBreakOff(plan, rest, limit + 1, 0, visible);
  }
}
