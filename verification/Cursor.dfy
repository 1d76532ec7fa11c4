/** Signed paging cursors: minting the payload of a row, encoding and signing it, and
    reading it back in the context of a later request. JSON, UTF-8, HMAC and ISO dates
    are parameters. */
module Cursor {
  import opened Wrappers
  import opened Text
  import opened JsonValues
  import opened SortFields
  import Base64

  type Bytes = seq<Base64.Byte>

  datatype Refusal =
    | BadFormat | BadEncoding | BadSignature | BadPayload
    | ScopeMismatch | TenantMismatch | SortMismatch | ValuesMissing | IdMissing | NoSortFields

  /** A refusal is a CursorError; the other two escape the reader's error handling. */
  datatype Failure = Refused(reason: Refusal) | EscapedTypeError | EscapedUnicodeError

  datatype Codec = Codec(
    dump: Json -> Bytes,
    utf8: Bytes -> Option<string>,
    load: string -> Option<Json>,
    sign: (string, Bytes) -> string)

  predicate Ascii(s: string) {
    forall i | 0 <= i < |s| :: s[i] < '\U{0080}'
  }

  /** Loading undoes dumping of this value. No codec does so for every value of `Json`,
      whose numbers are all the reals, so it is only asked of the payload at hand. */
  predicate Reads(codec: Codec, json: Json) {
    var text := codec.utf8(codec.dump(json));
    text.Some? && codec.load(text.value) == Some(json)
  }

  /** The signatures of the payload's bytes are ASCII, as hexadecimal digits are. */
  predicate SignsAscii(codec: Codec, secret: string, payload: map<string, Json>) {
    Ascii(codec.sign(secret, codec.dump(Object(payload))))
  }

  // ------------------------------------------------------------------- values

  datatype Iso = Iso(format: int -> string, parse: string -> Option<int>)

  ghost predicate IsoLawful(iso: Iso) {
    forall t :: iso.parse(iso.format(t)) == Some(t)
  }

  function SerializeValue(value: Value, serializer: Option<Value -> Json>, iso: Iso): Json {
    if serializer.Some? then serializer.value(value)
    else match value
         case Moment(t) => Text(iso.format(t))
         case Plain(json) => json
  }

  /** Text that reads as an ISO date becomes an instant; naive dates count as UTC. */
  function ParseValue(json: Json, parser: Option<Json -> Value>, iso: Iso): Value {
    if parser.Some? then parser.value(json)
    else if json.Text? && iso.parse(json.text).Some? then Moment(iso.parse(json.text).value)
    else Plain(json)
  }

  predicate LooksLikeDate(value: Value, iso: Iso) {
    value.Plain? && value.json.Text? && iso.parse(value.json.text).Some?
  }

  /** A column without its own parser gets its values back from a cursor exactly when
      they are not text that reads as a date. */
  lemma ValueRoundTrip(value: Value, iso: Iso)
    requires IsoLawful(iso)
    ensures ParseValue(SerializeValue(value, None, iso), None, iso) == value <==> !LooksLikeDate(value, iso)
  {
    if value.Moment? {
      assert iso.parse(iso.format(value.instant)) == Some(value.instant);
    }
  }

  /** A column's own serializer and parser are used in place of the general ones. */
  lemma OwnCodecIsUsed(value: Value, json: Json, serializer: Value -> Json, parser: Json -> Value, iso: Iso)
    ensures SerializeValue(value, Some(serializer), iso) == serializer(value)
    ensures ParseValue(json, Some(parser), iso) == parser(json)
  {
  }

  // ------------------------------------------------------------------- the payload

  predicate Covers(row: map<string, Value>, fields: seq<SortField>) {
    forall i | 0 <= i < |fields| :: fields[i].name in row
  }

  function ValuesOf(fields: seq<SortField>, row: map<string, Value>, iso: Iso): map<string, Json>
    requires Covers(row, fields)
  {
    if fields == [] then map[]
    else
      var field := Last(fields);
      ValuesOf(Front(fields), row, iso)[field.name := SerializeValue(row[field.name], field.spec.serializer, iso)]
  }

  function PayloadOf(scope: string, tenant: string, fields: seq<SortField>, row: map<string, Value>, id: Json, iso: Iso)
    : map<string, Json>
    requires Covers(row, fields)
  {
    map["v" := Number(1.0), "scope" := Text(scope), "tenant_id" := Text(tenant), "sort" := Text(TokenOf(fields)),
        "values" := Object(ValuesOf(fields, row, iso)), "id" := id]
  }

  method BuildCursorPayload(scope: string, tenant: string, fields: seq<SortField>, row: map<string, Value>, id: Json, iso: Iso)
    returns (payload: map<string, Json>)
    requires Covers(row, fields)
    ensures payload == PayloadOf(scope, tenant, fields, row, id, iso)
  {
    var values: map<string, Json> := map[];
    for i := 0 to |fields|
      invariant values == ValuesOf(fields[..i], row, iso)
    {
      assert Front(fields[..i + 1]) == fields[..i];
      values := values[fields[i].name := SerializeValue(row[fields[i].name], fields[i].spec.serializer, iso)];
    }
    assert fields[..|fields|] == fields;
    var token := SortToken(fields);
    payload := map["v" := Number(1.0), "scope" := Text(scope), "tenant_id" := Text(tenant), "sort" := Text(token),
                   "values" := Object(values), "id" := id];
  }

  lemma {:induction false} ValuesHoldEveryField(fields: seq<SortField>, row: map<string, Value>, iso: Iso, i: nat)
    requires Covers(row, fields) && Distinct(fields) && i < |fields|
    ensures fields[i].name in ValuesOf(fields, row, iso)
    ensures ValuesOf(fields, row, iso)[fields[i].name]
         == SerializeValue(row[fields[i].name], fields[i].spec.serializer, iso)
    decreases |fields|
  {
    if i < |fields| - 1 {
      ValuesHoldEveryField(Front(fields), row, iso, i);
    }
  }

  /** What a minted payload says, by name; no sort field but its own is in it. */
  lemma PayloadSays(scope: string, tenant: string, fields: seq<SortField>, row: map<string, Value>, id: Json, iso: Iso)
    requires Covers(row, fields)
    ensures var payload := PayloadOf(scope, tenant, fields, row, id, iso);
            && payload.Keys == {"v", "scope", "tenant_id", "sort", "values", "id"}
            && payload["v"] == Number(1.0) && payload["scope"] == Text(scope) && payload["tenant_id"] == Text(tenant)
            && payload["sort"] == Text(TokenOf(fields)) && payload["id"] == id && payload["values"].Object?
            && forall name :: name in payload["values"].fields <==> Seen(fields, name)
  {
    ValuesAreOfFields(fields, row, iso);
  }

  lemma {:induction false} ValuesAreOfFields(fields: seq<SortField>, row: map<string, Value>, iso: Iso)
    requires Covers(row, fields)
    ensures forall name :: name in ValuesOf(fields, row, iso) <==> Seen(fields, name)
  {
    if fields != [] {
      ValuesAreOfFields(Front(fields), row, iso);
      SeenAfterAppend(Front(fields), Last(fields));
      assert fields == Front(fields) + [Last(fields)];
    }
  }

  function Get(payload: map<string, Json>, key: string): Json {
    if key in payload then payload[key] else Null
  }

  function Validate(payload: map<string, Json>, scope: string, tenant: string, sort: string)
    : Result<map<string, Json>, Refusal>
  {
    if Get(payload, "scope") != Text(scope) then Err(ScopeMismatch)
    else if Get(payload, "tenant_id") != Text(tenant) then Err(TenantMismatch)
    else if Get(payload, "sort") != Text(sort) then Err(SortMismatch)
    else if !Get(payload, "values").Object? then Err(ValuesMissing)
    else if "id" !in payload then Err(IdMissing)
    else Ok(payload)
  }

  // ------------------------------------------------------------------- the token

  function EncodeCursor(payload: map<string, Json>, secret: string, codec: Codec): string {
    var raw := codec.dump(Object(payload));
    Base64.Encode(raw) + "." + codec.sign(secret, raw)
  }

  function ReadSigned(encoded: string, signature: string, secret: string, codec: Codec): Result<map<string, Json>, Failure> {
    var raw := Base64.Decode(Base64.Padded(encoded));
    if raw.None? then Err(Refused(BadEncoding))
    else if !Ascii(signature) then Err(EscapedTypeError)
    else if codec.sign(secret, raw.value) != signature then Err(Refused(BadSignature))
    else ReadPayload(codec.utf8(raw.value), codec)
  }

  function ReadPayload(text: Option<string>, codec: Codec): Result<map<string, Json>, Failure> {
    if text.None? then Err(EscapedUnicodeError)
    else
      var json := codec.load(text.value);
      if json.None? || !json.value.Object? then Err(Refused(BadPayload)) else Ok(json.value.fields)
  }

  function DecodeCursor(token: string, secret: string, codec: Codec): Result<map<string, Json>, Failure> {
    var at := Find(token, ".", 0);
    if at == -1 then Err(Refused(BadFormat))
    else ReadSigned(token[..at], token[at + 1..], secret, codec)
  }

  lemma TokenSplitsAtDot(encoded: string, signature: string, secret: string, codec: Codec)
    requires '.' !in encoded
    ensures DecodeCursor(encoded + "." + signature, secret, codec) == ReadSigned(encoded, signature, secret, codec)
  {
    var token := encoded + "." + signature;
    forall i: nat | i < |encoded| ensures !Occurs(token, ".", i) {
      OccurrenceShows(token, ".", i);
      assert token[i] == encoded[i];
    }
    assert token[|encoded|..|encoded| + 1] == ".";
    FirstIsFound(token, ".", 0, |encoded|);
    assert token[..|encoded|] == encoded && token[|encoded| + 1..] == signature;
  }

  lemma EncodedTokenParts(payload: map<string, Json>, minted: string, secret: string, codec: Codec)
    ensures DecodeCursor(EncodeCursor(payload, minted, codec), secret, codec)
         == ReadSigned(Base64.Encode(codec.dump(Object(payload))), codec.sign(minted, codec.dump(Object(payload))),
                       secret, codec)
  {
    var raw := codec.dump(Object(payload));
    Base64.EncodeIsLetters(raw);
    TokenSplitsAtDot(Base64.Encode(raw), codec.sign(minted, raw), secret, codec);
  }

  /** A token read under any secret gives its payload back when that secret signs the
      payload alike, and is refused for its signature otherwise. */
  lemma CursorRoundTrip(payload: map<string, Json>, minted: string, secret: string, codec: Codec)
    requires Reads(codec, Object(payload)) && SignsAscii(codec, minted, payload)
    ensures var raw := codec.dump(Object(payload));
            (DecodeCursor(EncodeCursor(payload, minted, codec), secret, codec)
             == if codec.sign(minted, raw) == codec.sign(secret, raw) then Ok(payload) else Err(Refused(BadSignature)))
  {
    var raw := codec.dump(Object(payload));
    EncodedTokenParts(payload, minted, secret, codec);
    Base64.RoundTrip(raw);
  }

  /** Only bytes signed under the secret are ever read. */
  lemma AcceptedIsSigned(token: string, secret: string, codec: Codec)
    requires DecodeCursor(token, secret, codec).Ok?
    ensures exists encoded: string, raw: Bytes ::
              && Base64.Decode(Base64.Padded(encoded)) == Some(raw)
              && token == encoded + "." + codec.sign(secret, raw)
              && codec.utf8(raw).Some?
              && codec.load(codec.utf8(raw).value) == Some(Object(DecodeCursor(token, secret, codec).value))
  {
    var at := Find(token, ".", 0);
    FindsFirst(token, ".", 0);
    CutTwice(token, at, at + 1);
    var raw := Base64.Decode(Base64.Padded(token[..at])).value;
    assert token == token[..at] + "." + codec.sign(secret, raw);
  }

  predicate Escapes(r: Result<map<string, Json>, Failure>) {
    r.Err? && !r.error.Refused?
  }

  lemma NoDotIsBadFormat(token: string, secret: string, codec: Codec)
    requires '.' !in token
    ensures DecodeCursor(token, secret, codec) == Err(Refused(BadFormat))
  {
    FindsFirst(token, ".", 0);
    forall i: nat ensures !Occurs(token, ".", i) {
      OccurrenceShows(token, ".", i);
    }
  }

  /** A token escapes the reader's error handling exactly when its encoded part decodes,
      and its signature part is either not ASCII (a TypeError) or the signature of bytes
      that are not UTF-8 (a UnicodeDecodeError). A token without a separator never does. */
  lemma EscapesExactlyOnForeignSignature(encoded: string, signature: string, secret: string, codec: Codec)
    requires '.' !in encoded
    ensures var r, raw := DecodeCursor(encoded + "." + signature, secret, codec), Base64.Decode(Base64.Padded(encoded));
            && (r == Err(EscapedTypeError) <==> raw.Some? && exists i :: 0 <= i < |signature| && signature[i] as int > 127)
            && (r == Err(EscapedUnicodeError) <==>
                  raw.Some? && Ascii(signature) && signature == codec.sign(secret, raw.value) && codec.utf8(raw.value).None?)
    ensures !Escapes(DecodeCursor(encoded, secret, codec))
  {
    TokenSplitsAtDot(encoded, signature, secret, codec);
    NoDotIsBadFormat(encoded, secret, codec);
  }

  /** The second escape needs a signature of something other than a payload: where every
      signature at hand is of dumped JSON that reads back, no token with an ASCII signature escapes. */
  lemma GenuineSignaturesDoNotEscape(encoded: string, signature: string, secret: string, codec: Codec)
    requires '.' !in encoded && Ascii(signature)
    requires forall raw: Bytes | codec.sign(secret, raw) == signature ::
               exists json :: Reads(codec, json) && raw == codec.dump(json)
    ensures !Escapes(DecodeCursor(encoded + "." + signature, secret, codec))
  {
    EscapesExactlyOnForeignSignature(encoded, signature, secret, codec);
  }

  /** Any well-formed encoding before a signature that is not ASCII escapes. */
  lemma ForeignSignatureEscapes(raw: Bytes, signature: string, secret: string, codec: Codec)
    requires !Ascii(signature)
    ensures DecodeCursor(Base64.Encode(raw) + "." + signature, secret, codec) == Err(EscapedTypeError)
  {
    Base64.EncodeIsLetters(raw);
    Base64.RoundTrip(raw);
    EscapesExactlyOnForeignSignature(Base64.Encode(raw), signature, secret, codec);
  }

  // ------------------------------------------------------------------- in context

  /** The whole path of a client's cursor: read, then checked against the request. */
  function ReadInContext(token: string, secret: string, scope: string, tenant: string, sort: string, codec: Codec)
    : Result<map<string, Json>, Failure>
  {
    var decoded := DecodeCursor(token, secret, codec);
    if decoded.Err? then decoded
    else
      match Validate(decoded.value, scope, tenant, sort)
      case Ok(payload) => Ok(payload)
      case Err(reason) => Err(Refused(reason))
  }

  lemma MintedPayloadValidates(minted: string, owner: string, fields: seq<SortField>, row: map<string, Value>, id: Json,
                               iso: Iso, scope: string, tenant: string, sort: string)
    requires Covers(row, fields)
    ensures var payload := PayloadOf(minted, owner, fields, row, id, iso);
            && (Validate(payload, scope, tenant, sort).Ok? <==>
                  minted == scope && owner == tenant && TokenOf(fields) == sort)
            && (Validate(payload, scope, tenant, sort).Ok? ==> Validate(payload, scope, tenant, sort).value == payload)
  {
  }

  /** Sorts that came out of parsing are told apart by their tokens. */
  lemma TokenTellsSortsApart(fields: seq<SortField>, others: seq<SortField>, allowed: map<string, SortSpec>)
    requires fields != [] && Distinct(fields) && AllAllowed(fields, allowed) && AllClean(fields)
    requires others != [] && Distinct(others) && AllAllowed(others, allowed) && AllClean(others)
    ensures TokenOf(fields) == TokenOf(others) <==> fields == others
  {
    CleanTokenParsesBack(fields, allowed, []);
    CleanTokenParsesBack(others, allowed, []);
  }

  /** A minted cursor, sent back, is accepted exactly in its own scope, for its own
      tenant and under its own sort, and then holds what was minted. */
  lemma CursorAcceptedExactlyInItsContext(minted: string, owner: string, fields: seq<SortField>, row: map<string, Value>,
                                          id: Json, iso: Iso, secret: string, codec: Codec, scope: string, tenant: string,
                                          others: seq<SortField>, allowed: map<string, SortSpec>)
    requires Covers(row, fields)
    requires Reads(codec, Object(PayloadOf(minted, owner, fields, row, id, iso)))
    requires SignsAscii(codec, secret, PayloadOf(minted, owner, fields, row, id, iso))
    requires fields != [] && Distinct(fields) && AllAllowed(fields, allowed) && AllClean(fields)
    requires others != [] && Distinct(others) && AllAllowed(others, allowed) && AllClean(others)
    ensures var payload := PayloadOf(minted, owner, fields, row, id, iso);
            var read := ReadInContext(EncodeCursor(payload, secret, codec), secret, scope, tenant, TokenOf(others), codec);
            && (read.Ok? <==> minted == scope && owner == tenant && fields == others)
            && (read.Ok? ==> read.value == payload)
  {
    CursorRoundTrip(PayloadOf(minted, owner, fields, row, id, iso), secret, secret, codec);
    MintedPayloadValidates(minted, owner, fields, row, id, iso, scope, tenant, TokenOf(others));
    TokenTellsSortsApart(fields, others, allowed);
  }
}
