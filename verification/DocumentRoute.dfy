/** The document listing as its client sees it: sort strings and signed tokens in, rows and
    the next token out. */
module DocumentRoute {
  import opened Wrappers
  import opened Text
  import opened JsonValues
  import opened SortFields
  import opened Cursor
  import opened Keyset
  import opened Filtering
  import opened Paging
  import opened DocumentListing

  /** What every request finds: the secret, the codec, the columns that may be sorted by,
      and the database. */
  datatype Site = Site(secret: string, codec: Codec, allowed: map<string, SortSpec>, default: seq<SortField>,
                       idColumn: string, kinds: string -> Kind, less: Order, iso: Iso, str: Json -> string)

  function PlanFor(site: Site, fields: seq<SortField>): Plan {
    Plan(fields, site.idColumn, site.kinds, site.less, site.iso, site.str)
  }

  /** A sort that parsing can produce. */
  ghost predicate Proper(site: Site, fields: seq<SortField>) {
    fields != [] && SortFields.Distinct(fields) && AllAllowed(fields, site.allowed) && AllClean(fields)
  }

  ghost predicate SoundSite(site: Site) {
    && (forall name | name in site.allowed :: site.allowed[name] == SortSpec(name, None, None))
    && Proper(site, site.default)
    && site.kinds(site.idColumn) == Textual
    && Irreflexive(site.less) && Transitive(site.less) && IsoLawful(site.iso)
  }

  lemma ParsedSortIsProper(site: Site, sort: Option<string>)
    requires SoundSite(site) && ParsedSort(sort, site.allowed, site.default).Ok?
    ensures Proper(site, ParsedSort(sort, site.allowed, site.default).value)
    ensures Sound(PlanFor(site, ParsedSort(sort, site.allowed, site.default).value))
  {
    if sort.Some? && ReadFields(Split(sort.value, ","), site.allowed).Ok? {
      AcceptedFields(sort.value, site.allowed);
    }
  }

  // ------------------------------------------------------------------- one request

  datatype Problem =
    | UnsupportedSort(name: string)
    | InvalidCursor(reason: Refusal)
    | Crash(failure: Failure)
    | DatabaseError

  /** What a client asks, of what table and with what rights. */
  datatype Ask = Ask(listing: seq<Row>, visible: Row -> bool, tenant: string, sort: Option<string>, token: Option<string>,
                     limit: nat)

  datatype Reply = Reply(rows: seq<Row>, next: Option<string>)

  /** Where the token stands: nowhere without one, or an empty one. */
  function PositionOf(site: Site, fields: seq<SortField>, tenant: string, token: Option<string>): Result<Position, Failure> {
    if token.None? || token.value == "" then Ok(None)
    else
      match ReadInContext(token.value, site.secret, SCOPE, tenant, TokenOf(fields), site.codec)
      case Ok(payload) => Ok(Some(payload))
      case Err(failure) => Err(failure)
  }

  function ProblemOf(failure: Failure): Problem {
    if failure.Refused? then InvalidCursor(failure.reason) else Crash(failure)
  }

  function TokenFor(site: Site, position: Position): Option<string> {
    if position.None? then None else Some(EncodeCursor(position.value, site.secret, site.codec))
  }

  /** What the request is answered from. */
  function Opening(site: Site, ask: Ask): Result<(Plan, Position), Problem> {
    match ParsedSort(ask.sort, site.allowed, site.default)
    case Err(name) => Err(UnsupportedSort(name))
    case Ok(fields) =>
      match PositionOf(site, fields, ask.tenant, ask.token)
      case Err(failure) => Err(ProblemOf(failure))
      case Ok(position) => Ok((PlanFor(site, fields), position))
  }

  /** The table is listed in the order asked for. */
  ghost predicate Listed(site: Site, ask: Ask) {
    Opening(site, ask).Ok? ==>
      var plan := Opening(site, ask).value.0;
      Sorted(ask.listing, KeyOf(plan), KeyOrder(plan)) && AllStored(plan, ask.listing)
  }

  /** The request breaks off with a database error. */
  predicate QueryFails(ask: Ask, plan: Plan, position: Position) {
    !PositionFits(plan, position) || BreaksOff(plan, Rest(plan, ask.listing, position), ask.limit + 1, 0, ask.visible)
  }

  /** Where a reply's token stands: at its last row. */
  function NextOf(plan: Plan, tenant: string, reply: Reply): Position {
    if reply.next.Some? && reply.rows != [] && Stored(plan, Last(reply.rows))
    then Some(RowPayload(plan, tenant, Last(reply.rows))) else None
  }

  /** The reply is the page asked for, with the token of its last row if more follow. */
  ghost predicate Fulfils(site: Site, ask: Ask, plan: Plan, position: Position, reply: Reply) {
    var next := NextOf(plan, ask.tenant, reply);
    && Correct(plan, ask.listing, ask.tenant, position, ask.limit, ask.visible, Answer(reply.rows, next))
    && reply.next == TokenFor(site, next)
  }

  method OpenRequest(site: Site, ask: Ask) returns (opening: Result<(Plan, Position), Problem>)
    ensures opening == Opening(site, ask)
  {
    var fields := ParseSort(ask.sort, site.allowed, site.default);
    if fields.Err? {
      return Err(UnsupportedSort(fields.error));
    }
    var signature := SortToken(fields.value);
    var position: Position := None;
    if ask.token.Some? && ask.token.value != "" {
      var read := ReadInContext(ask.token.value, site.secret, SCOPE, ask.tenant, signature, site.codec);
      if read.Err? {
        return Err(ProblemOf(read.error));
      }
      position := Some(read.value);
    }
    return Ok((PlanFor(site, fields.value), position));
  }

  /** The whole route: the sort is refused before the cursor is looked at, the cursor before
      the database is asked, and the page is signed last. */
  method UiDocuments(site: Site, ask: Ask) returns (reply: Result<Reply, Problem>)
    requires SoundSite(site) && Listed(site, ask) && ask.limit > 0
    ensures Opening(site, ask).Err? ==> reply == Err(Opening(site, ask).error)
    ensures Opening(site, ask).Ok? ==>
              var (plan, position) := Opening(site, ask).value;
              && (reply.Ok? <==> !QueryFails(ask, plan, position))
              && (reply.Ok? ==> Fulfils(site, ask, plan, position, reply.value))
              && (reply.Err? ==> reply.error == DatabaseError)
  {
    var opening := OpenRequest(site, ask);
    if opening.Err? {
      return Err(opening.error);
    }
    var (plan, position) := opening.value;
    ParsedSortIsProper(site, ask.sort);
    var answer := ListDocuments(plan, ask.listing, ask.tenant, position, ask.limit, ask.visible);
    if answer.None? {
      return Err(DatabaseError);
    }
    reply := Ok(Reply(answer.value.rows, TokenFor(site, answer.value.next)));
    assert NextOf(plan, ask.tenant, reply.value) == answer.value.next;
  }

  // ------------------------------------------------------------------- a client's session

  /** A request and its reply. */
  datatype Exchange = Exchange(ask: Ask, reply: Reply)

  /** The request was answered, as the contract of UiDocuments says. */
  ghost predicate Replied(site: Site, limit: nat, e: Exchange) {
    && Listed(site, e.ask) && e.ask.limit == limit && Opening(site, e.ask).Ok?
    && !QueryFails(e.ask, PlanOf(site, e), StandsAt(site, e))
    && Fulfils(site, e.ask, PlanOf(site, e), StandsAt(site, e), e.reply)
  }

  function PlanOf(site: Site, e: Exchange): Plan {
    if Opening(site, e.ask).Ok? then Opening(site, e.ask).value.0 else PlanFor(site, site.default)
  }

  function StandsAt(site: Site, e: Exchange): Position {
    if Opening(site, e.ask).Ok? then Opening(site, e.ask).value.1 else None
  }

  function NextAfter(site: Site, e: Exchange): Position {
    NextOf(PlanOf(site, e), e.ask.tenant, e.reply)
  }

  /** The codec reads back what it dumped of the reply's cursor, and signs in ASCII. */
  predicate TokenReads(site: Site, e: Exchange) {
    NextAfter(site, e).Some? ==>
      && Reads(site.codec, Object(NextAfter(site, e).value))
      && SignsAscii(site.codec, site.secret, NextAfter(site, e).value)
  }

  lemma MintedTokenReadsAs(site: Site, plan: Plan, tenant: string, row: Row, fields: seq<SortField>, asker: string)
    requires SoundSite(site) && Proper(site, plan.fields) && plan == PlanFor(site, plan.fields) && Proper(site, fields)
    requires Stored(plan, row) && Cell(row, plan.idColumn).Plain?
    requires Reads(site.codec, Object(RowPayload(plan, tenant, row)))
    requires SignsAscii(site.codec, site.secret, RowPayload(plan, tenant, row))
    ensures var token := TokenFor(site, Some(RowPayload(plan, tenant, row)));
            var read := PositionOf(site, fields, asker, token);
            && (read.Ok? <==> asker == tenant && fields == plan.fields)
            && (read.Ok? ==> read.value == Some(RowPayload(plan, tenant, row)))
            && (read.Err? ==> read.error.Refused?)
  {
    var payload, id := RowPayload(plan, tenant, row), Cell(row, plan.idColumn).json;
    CursorRoundTrip(payload, site.secret, site.secret, site.codec);
    MintedPayloadValidates(SCOPE, tenant, plan.fields, row, id, site.iso, SCOPE, asker, TokenOf(fields));
    TokenTellsSortsApart(plan.fields, fields, site.allowed);
  }

  lemma RepliedPlanIsProper(site: Site, limit: nat, e: Exchange)
    requires SoundSite(site) && Replied(site, limit, e)
    ensures Proper(site, PlanOf(site, e).fields) && PlanOf(site, e) == PlanFor(site, PlanOf(site, e).fields)
    ensures Sound(PlanOf(site, e))
  {
    ParsedSortIsProper(site, e.ask.sort);
  }

  /** The token of a reply opens a request exactly when that is of the same tenant and its
      sort string, however written, asks for the same fields; it then stands where the
      reply ended.  Any other request with it is refused. */
  lemma TokenOpensExactlyItsListing(site: Site, limit: nat, e: Exchange, ask: Ask)
    requires SoundSite(site) && Replied(site, limit, e) && TokenReads(site, e)
    requires e.reply.next.Some? && ask.token == e.reply.next
    requires ParsedSort(ask.sort, site.allowed, site.default).Ok?
    ensures Opening(site, ask).Ok? <==>
              ask.tenant == e.ask.tenant
              && ParsedSort(ask.sort, site.allowed, site.default).value == PlanOf(site, e).fields
    ensures Opening(site, ask).Ok? ==> Opening(site, ask).value == (PlanOf(site, e), NextAfter(site, e))
    ensures Opening(site, ask).Err? ==> Opening(site, ask).error.InvalidCursor?
  {
    RepliedPlanIsProper(site, limit, e);
    ParsedSortIsProper(site, ask.sort);
    MintedTokenReadsAs(site, PlanOf(site, e), e.ask.tenant, Last(e.reply.rows),
                       ParsedSort(ask.sort, site.allowed, site.default).value, ask.tenant);
  }

  /** A client that starts without a token and sends back each next token, with whatever
      sort string and for whatever tenant, as long as it is answered; table and rights
      change freely between requests. */
  ghost predicate TokenSession(site: Site, limit: nat, es: seq<Exchange>) {
    && (forall i | 0 <= i < |es| :: Replied(site, limit, es[i]) && TokenReads(site, es[i]))
    && (forall i | 0 < i < |es| :: SendsBack(es[i - 1], es[i]))
    && (es != [] ==> es[0].ask.token.None?)
  }

  predicate SendsBack(e: Exchange, next: Exchange) {
    e.reply.next.Some? && next.ask.token == e.reply.next
  }

  function RequestOf(site: Site, e: Exchange): Request {
    Request(e.ask.listing, e.ask.visible, StandsAt(site, e), Answer(e.reply.rows, NextAfter(site, e)))
  }

  function RequestsOf(site: Site, es: seq<Exchange>): (requests: seq<Request>)
    ensures |requests| == |es| && forall i | 0 <= i < |es| :: requests[i] == RequestOf(site, es[i])
  {
    seq(|es|, i requires 0 <= i < |es| => RequestOf(site, es[i]))
  }

  ghost predicate SameListing(site: Site, e: Exchange, next: Exchange) {
    PlanOf(site, next) == PlanOf(site, e) && next.ask.tenant == e.ask.tenant
  }

  lemma SendingBackStandsAtNext(site: Site, limit: nat, e: Exchange, next: Exchange)
    requires SoundSite(site) && Replied(site, limit, e) && TokenReads(site, e) && Replied(site, limit, next)
    requires SendsBack(e, next)
    ensures SameListing(site, e, next) && StandsAt(site, next) == NextAfter(site, e) && NextAfter(site, e).Some?
  {
    TokenOpensExactlyItsListing(site, limit, e, next.ask);
  }

  lemma {:induction false} SessionStep(site: Site, limit: nat, es: seq<Exchange>, i: nat)
    requires SoundSite(site) && TokenSession(site, limit, es) && 0 < i < |es|
    ensures SameListing(site, es[i - 1], es[i])
    ensures GoesOn(RequestOf(site, es[i - 1]), RequestOf(site, es[i]))
  {
    SendingBackStandsAtNext(site, limit, es[i - 1], es[i]);
  }

  lemma {:induction false} OneListingThroughout(site: Site, es: seq<Exchange>, i: nat)
    requires i < |es| && forall k | 0 < k < |es| :: SameListing(site, es[k - 1], es[k])
    ensures SameListing(site, es[0], es[i])
    decreases i
  {
    if i > 0 {
      OneListingThroughout(site, es, i - 1);
      assert SameListing(site, es[i - 1], es[i]);
    }
  }

  lemma RepliedIsAnswered(site: Site, limit: nat, e: Exchange)
    requires Replied(site, limit, e)
    ensures Answered(PlanOf(site, e), e.ask.tenant, limit, RequestOf(site, e))
  {
  }

  /** A session over tokens is one over the positions they stand for. */
  lemma {:induction false} TokenSessionIsSession(site: Site, limit: nat, es: seq<Exchange>)
    requires SoundSite(site) && TokenSession(site, limit, es) && es != []
    ensures Sound(PlanOf(site, es[0]))
    ensures Session(PlanOf(site, es[0]), es[0].ask.tenant, limit, RequestsOf(site, es))
  {
    var plan, tenant, requests := PlanOf(site, es[0]), es[0].ask.tenant, RequestsOf(site, es);
    RepliedPlanIsProper(site, limit, es[0]);
    forall i | 0 < i < |es| ensures SameListing(site, es[i - 1], es[i]) && GoesOn(requests[i - 1], requests[i]) {
      SessionStep(site, limit, es, i);
    }
    forall i | 0 <= i < |es| ensures Answered(plan, tenant, limit, requests[i]) {
      OneListingThroughout(site, es, i);
      RepliedIsAnswered(site, limit, es[i]);
    }
  }

  /** The rows the client has received. */
  function Received(es: seq<Exchange>): seq<Row> {
    if es == [] then [] else Received(Front(es)) + Last(es).reply.rows
  }

  lemma {:induction false} ReceivedAreAnswers(site: Site, es: seq<Exchange>)
    ensures Received(es) == Answers(RequestsOf(site, es))
  {
    if es != [] {
      ReceivedAreAnswers(site, Front(es));
      assert Front(RequestsOf(site, es)) == RequestsOf(site, Front(es));
    }
  }

  function ShownAt(e: Exchange): seq<Row> {
    Keep(e.ask.listing, e.ask.visible)
  }

  /** Following tokens, a client receives rows in strictly increasing order, so none twice. */
  lemma {:induction false} TokensNeverRepeat(site: Site, limit: nat, es: seq<Exchange>)
    requires SoundSite(site) && TokenSession(site, limit, es) && es != []
    ensures Sorted(Received(es), KeyOf(PlanOf(site, es[0])), KeyOrder(PlanOf(site, es[0])))
  {
    TokenSessionIsSession(site, limit, es);
    ReceivedAreAnswers(site, es);
    SessionNeverRepeats(PlanOf(site, es[0]), es[0].ask.tenant, limit, RequestsOf(site, es));
  }

  /** A client whose last reply holds no token has received, exactly once, every row that
      was in the table and readable throughout. */
  lemma {:induction false} TokensLoseNothing(site: Site, limit: nat, es: seq<Exchange>, row: Row) returns (k: nat)
    requires SoundSite(site) && TokenSession(site, limit, es) && es != [] && limit > 0
    requires Last(es).reply.next.None?
    requires forall i | 0 <= i < |es| :: row in ShownAt(es[i])
    ensures k < |Received(es)| && Received(es)[k] == row
    ensures forall j | 0 <= j < |Received(es)| && j != k :: Received(es)[j] != row
  {
    TokenSessionIsSession(site, limit, es);
    ReceivedAreAnswers(site, es);
    forall i | 0 <= i < |es| ensures row in Shown(RequestsOf(site, es)[i]) {
      assert row in ShownAt(es[i]);
    }
    k := FinishedSessionLosesNothing(PlanOf(site, es[0]), es[0].ask.tenant, limit, RequestsOf(site, es), row);
  }

  /** Over a fixed table and fixed rights the tokens run out after one request per started
      page, and the client has then received exactly the readable rows in order. */
  lemma {:induction false} TokensOfFixedTable(site: Site, limit: nat, es: seq<Exchange>, shown: seq<Row>)
    requires SoundSite(site) && TokenSession(site, limit, es) && es != [] && limit > 0
    requires forall i | 0 <= i < |es| :: ShownAt(es[i]) == shown
    ensures |es| > 1 ==> (|es| - 1) * limit < |shown|
    ensures Last(es).reply.next.None? <==> |es| * limit >= |shown|
    ensures Last(es).reply.next.None? ==> Received(es) == shown
  {
    TokenSessionIsSession(site, limit, es);
    ReceivedAreAnswers(site, es);
    forall i | 0 <= i < |es| ensures Shown(RequestsOf(site, es)[i]) == shown {
      assert ShownAt(es[i]) == shown;
    }
    SessionOfFixedTable(PlanOf(site, es[0]), es[0].ask.tenant, limit, RequestsOf(site, es), shown);
  }
}
