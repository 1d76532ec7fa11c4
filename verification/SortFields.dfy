/** Sort strings of the UI listings: comma-separated field names, a leading `-` for
    descending order. */
module SortFields {
  import opened Wrappers
  import opened Text
  import opened JsonValues

  /** A column value: an instant for aware datetimes, JSON data for anything else. */
  datatype Value = Moment(instant: int) | Plain(json: Json)

  datatype SortSpec = SortSpec(column: string, parser: Option<Json -> Value>, serializer: Option<Value -> Json>)

  datatype Direction = Asc | Desc

  datatype SortField = SortField(name: string, spec: SortSpec, direction: Direction)

  datatype Mention = Mention(name: string, direction: Direction)

  // ------------------------------------------------------------------- the sort token

  function Token(field: SortField): string {
    (if field.direction.Desc? then "-" else "") + field.name
  }

  function Tokens(fields: seq<SortField>): (tokens: seq<string>)
    ensures |tokens| == |fields| && forall i | 0 <= i < |fields| :: tokens[i] == Token(fields[i])
  {
    seq(|fields|, i requires 0 <= i < |fields| => Token(fields[i]))
  }

  function TokenOf(fields: seq<SortField>): string {
    if fields == [] then "" else JoinPieces(Tokens(fields), ",")
  }

  method SortToken(fields: seq<SortField>) returns (token: string)
    ensures token == TokenOf(fields)
  {
    var parts := [];
    for i := 0 to |fields|
      invariant parts == Tokens(fields)[..i]
    {
      var prefix := if fields[i].direction.Desc? then "-" else "";
      parts := parts + [prefix + fields[i].name];
    }
    assert parts == Tokens(fields);
    token := if |parts| == 0 then "" else JoinPieces(parts, ",");
  }

  // ------------------------------------------------------------------- parsing

  /** What one piece between commas asks for; nothing when it is blank. */
  function ReadMention(raw: string): Option<Mention> {
    var text := Trim(raw, PythonSpace);
    if text == "" then None
    else if text[0] == '-' then Some(Mention(text[1..], Desc))
    else Some(Mention(text, Asc))
  }

  predicate Seen(fields: seq<SortField>, name: string) {
    exists i | 0 <= i < |fields| :: fields[i].name == name
  }

  function ReadField(fields: seq<SortField>, raw: string, allowed: map<string, SortSpec>)
    : Result<seq<SortField>, string>
  {
    match ReadMention(raw)
    case None => Ok(fields)
    case Some(m) =>
      if Seen(fields, m.name) then Ok(fields)
      else if m.name in allowed then Ok(fields + [SortField(m.name, allowed[m.name], m.direction)])
      else Err(m.name)
  }

  /** The fields of the pieces read left to right, or the name that was refused. */
  function ReadFields(raws: seq<string>, allowed: map<string, SortSpec>): Result<seq<SortField>, string> {
    if raws == [] then Ok([])
    else
      var read := ReadFields(Front(raws), allowed);
      if read.Err? then read else ReadField(read.value, Last(raws), allowed)
  }

  function ParsedSort(sort: Option<string>, allowed: map<string, SortSpec>, default: seq<SortField>)
    : Result<seq<SortField>, string>
  {
    if sort.None? || sort.value == "" then Ok(default)
    else
      var read := ReadFields(Split(sort.value, ","), allowed);
      if read.Ok? && |read.value| == 0 then Ok(default) else read
  }

  lemma ReadFieldsStep(raws: seq<string>, i: nat, allowed: map<string, SortSpec>)
    requires i < |raws| && ReadFields(raws[..i], allowed).Ok?
    ensures ReadFields(raws[..i + 1], allowed) == ReadField(ReadFields(raws[..i], allowed).value, raws[i], allowed)
  {
    assert Front(raws[..i + 1]) == raws[..i];
  }

  lemma {:induction false} RefusalStays(raws: seq<string>, i: nat, allowed: map<string, SortSpec>)
    requires i <= |raws| && ReadFields(raws[..i], allowed).Err?
    ensures ReadFields(raws, allowed) == ReadFields(raws[..i], allowed)
    decreases |raws| - i
  {
    if i == |raws| {
      assert raws[..i] == raws;
    } else {
      assert Front(raws[..i + 1]) == raws[..i];
      RefusalStays(raws, i + 1, allowed);
    }
  }

  method ParseSort(sort: Option<string>, allowed: map<string, SortSpec>, default: seq<SortField>)
    returns (r: Result<seq<SortField>, string>)
    ensures r == ParsedSort(sort, allowed, default)
  {
    if sort.None? || sort.value == "" {
      return Ok(default);
    }
    var raws := Split(sort.value, ",");
    var fields: seq<SortField> := [];
    var seen: set<string> := {};
    for i := 0 to |raws|
      invariant ReadFields(raws[..i], allowed) == Ok(fields)
      invariant forall name :: name in seen <==> Seen(fields, name)
    {
      ReadFieldsStep(raws, i, allowed);
      var raw := Trim(raws[i], PythonSpace);
      if raw != "" {
        var direction := if raw[0] == '-' then Desc else Asc;
        var name := if raw[0] == '-' then raw[1..] else raw;
        if name !in seen {
          if name !in allowed {
            RefusalStays(raws, i + 1, allowed);
            return Err(name);
          }
          ghost var before := fields;
          fields := fields + [SortField(name, allowed[name], direction)];
          seen := seen + {name};
          SeenAfterAppend(before, fields[|before|]);
        }
      }
    }
    assert raws[..|raws|] == raws;
    r := if |fields| == 0 then Ok(default) else Ok(fields);
  }

  lemma SeenAfterAppend(fields: seq<SortField>, field: SortField)
    ensures forall name :: Seen(fields + [field], name) <==> Seen(fields, name) || name == field.name
  {
    var more := fields + [field];
    assert more[|fields|].name == field.name;
    forall name | Seen(fields, name) ensures Seen(more, name) {
      var i :| 0 <= i < |fields| && fields[i].name == name;
      assert more[i].name == name;
    }
  }

  // ------------------------------------------------------------------- what parsing keeps

  predicate Distinct(fields: seq<SortField>) {
    forall i, j | 0 <= i < j < |fields| :: fields[i].name != fields[j].name
  }

  ghost predicate AllAllowed(fields: seq<SortField>, allowed: map<string, SortSpec>) {
    forall i | 0 <= i < |fields| :: fields[i].name in allowed && fields[i].spec == allowed[fields[i].name]
  }

  /** The token of the field reads back as the field. */
  predicate Clean(field: SortField) {
    var token := Token(field);
    && token != "" && Trimmed(token, PythonSpace) && ',' !in token
    && (field.direction.Asc? ==> token[0] != '-')
  }

  predicate AllClean(fields: seq<SortField>) {
    forall i | 0 <= i < |fields| :: Clean(fields[i])
  }

  lemma MentionOfClean(field: SortField)
    requires Clean(field)
    ensures ReadMention(Token(field)) == Some(Mention(field.name, field.direction))
  {
    TrimOfTrimmed(Token(field), PythonSpace);
    assert field.direction.Desc? ==> Token(field)[1..] == field.name;
    assert field.direction.Asc? ==> Token(field) == field.name;
  }

  lemma CleanFromMention(raw: string, field: SortField)
    requires ',' !in raw && ReadMention(raw) == Some(Mention(field.name, field.direction))
    ensures Clean(field)
  {
    var lead, tail := TrimParts(raw, PythonSpace);
    var text := Trim(raw, PythonSpace);
    assert Token(field) == text;
    forall k | 0 <= k < |text| ensures text[k] != ',' {
      assert raw[|lead| + k] == text[k];
    }
  }

  lemma {:induction false} ParsedFieldsAreClean(raws: seq<string>, allowed: map<string, SortSpec>)
    requires forall k | 0 <= k < |raws| :: ',' !in raws[k]
    requires ReadFields(raws, allowed).Ok?
    ensures AllClean(ReadFields(raws, allowed).value)
  {
    if raws != [] {
      ParsedFieldsAreClean(Front(raws), allowed);
      var before, after := ReadFields(Front(raws), allowed).value, ReadFields(raws, allowed).value;
      if before != after {
        CleanFromMention(Last(raws), Last(after));
      }
    }
  }

  lemma {:induction false} ParsedFieldsAreAllowed(raws: seq<string>, allowed: map<string, SortSpec>)
    requires ReadFields(raws, allowed).Ok?
    ensures Distinct(ReadFields(raws, allowed).value) && AllAllowed(ReadFields(raws, allowed).value, allowed)
  {
    if raws != [] {
      ParsedFieldsAreAllowed(Front(raws), allowed);
    }
  }

  lemma PiecesHoldNoComma(sort: string)
    ensures forall k | 0 <= k < |Split(sort, ",")| :: ',' !in Split(sort, ",")[k]
  {
    SplitIsExact(sort, ",");
    var pieces := Split(sort, ",");
    forall k | 0 <= k < |pieces| ensures ',' !in pieces[k] {
      assert pieces[k] in pieces;
      FindsFirst(pieces[k], ",", 0);
      forall i | 0 <= i < |pieces[k]| ensures pieces[k][i] != ',' {
        assert !Occurs(pieces[k], ",", i);
      }
    }
  }

  /** Whatever parsing accepts, other than the default, is free of repeats, allowed
      field by field, and clean. */
  lemma AcceptedFields(sort: string, allowed: map<string, SortSpec>)
    requires ReadFields(Split(sort, ","), allowed).Ok?
    ensures var fields := ReadFields(Split(sort, ","), allowed).value;
            Distinct(fields) && AllAllowed(fields, allowed) && AllClean(fields)
  {
    PiecesHoldNoComma(sort);
    ParsedFieldsAreClean(Split(sort, ","), allowed);
    ParsedFieldsAreAllowed(Split(sort, ","), allowed);
  }

  // ------------------------------------------------------------------- the round trip

  lemma CleanFieldIsRead(fields: seq<SortField>, field: SortField, allowed: map<string, SortSpec>)
    requires Clean(field) && !Seen(fields, field.name)
    requires field.name in allowed && field.spec == allowed[field.name]
    ensures ReadField(fields, Token(field), allowed) == Ok(fields + [field])
  {
    MentionOfClean(field);
  }

  lemma ReadStep(raws: seq<string>, raw: string, fields: seq<SortField>, field: SortField, allowed: map<string, SortSpec>)
    requires ReadFields(raws, allowed) == Ok(fields) && ReadField(fields, raw, allowed) == Ok(fields + [field])
    ensures ReadFields(raws + [raw], allowed) == Ok(fields + [field])
  {
    assert Front(raws + [raw]) == raws;
  }

  lemma {:induction false} TokensReadBack(fields: seq<SortField>, allowed: map<string, SortSpec>)
    requires Distinct(fields) && AllAllowed(fields, allowed) && AllClean(fields)
    ensures ReadFields(Tokens(fields), allowed) == Ok(fields)
  {
    if fields != [] {
      var field, before := Last(fields), Front(fields);
      TokensReadBack(before, allowed);
      assert !Seen(before, field.name);
      CleanFieldIsRead(before, field, allowed);
      ReadStep(Tokens(before), Token(field), before, field, allowed);
      TokensAppend(before, field);
      assert before + [field] == fields;
    }
  }

  lemma TokensAppend(fields: seq<SortField>, field: SortField)
    ensures Tokens(fields + [field]) == Tokens(fields) + [Token(field)]
  {
  }

  lemma TokenStartsAsFirst(fields: seq<SortField>)
    requires fields != [] && Token(fields[0]) != ""
    ensures TokenOf(fields) != ""
  {
    var tokens := Tokens(fields);
    assert tokens[0] == Token(fields[0]);
  }

  lemma CleanTokenParsesBack(fields: seq<SortField>, allowed: map<string, SortSpec>, default: seq<SortField>)
    requires fields != [] && Distinct(fields) && AllAllowed(fields, allowed) && AllClean(fields)
    ensures ParsedSort(Some(TokenOf(fields)), allowed, default) == Ok(fields)
  {
    SplitOfPieces(Tokens(fields), ',');
    TokenStartsAsFirst(fields);
    TokensReadBack(fields, allowed);
  }

  /** Parsing undoes the sort token of allowed fields without repeats exactly when
      every field is clean; a list that happens to be the default comes back anyway. */
  lemma SortRoundTrip(fields: seq<SortField>, allowed: map<string, SortSpec>, default: seq<SortField>)
    requires fields != [] && Distinct(fields) && AllAllowed(fields, allowed)
    ensures AllClean(fields) ==> ParsedSort(Some(TokenOf(fields)), allowed, default) == Ok(fields)
    ensures fields != default ==>
              (ParsedSort(Some(TokenOf(fields)), allowed, default) == Ok(fields) <==> AllClean(fields))
  {
    if AllClean(fields) {
      CleanTokenParsesBack(fields, allowed, default);
    } else if fields != default && ParsedSort(Some(TokenOf(fields)), allowed, default) == Ok(fields) {
      AcceptedFields(TokenOf(fields), allowed);
    }
  }

  /** No sort fields at all read back as the default. */
  lemma NoFieldsReadAsDefault(allowed: map<string, SortSpec>, default: seq<SortField>)
    ensures ParsedSort(Some(TokenOf([])), allowed, default) == ParsedSort(None, allowed, default) == Ok(default)
  {
  }

  /** A comma in a field name breaks the round trip. */
  lemma CommaInNameIsLost(spec: SortSpec)
    ensures var allowed := map["a,b" := spec, "a" := spec, "b" := spec];
            var fields := [SortField("a,b", spec, Asc)];
            && TokenOf(fields) == "a,b"
            && ParsedSort(Some(TokenOf(fields)), allowed, []) != Ok(fields)
  {
    var allowed := map["a,b" := spec, "a" := spec, "b" := spec];
    var fields := [SortField("a,b", spec, Asc)];
    assert ',' == Token(fields[0])[1];
    assert !Clean(fields[0]);
    SortRoundTrip(fields, allowed, []);
  }

  /** Any accepted sort string is equivalent to the token of its fields. */
  lemma TokenIsNormalForm(sort: string, allowed: map<string, SortSpec>, default: seq<SortField>)
    requires ReadFields(Split(sort, ","), allowed).Ok? && |ReadFields(Split(sort, ","), allowed).value| > 0
    requires sort != ""
    ensures var parsed := ParsedSort(Some(sort), allowed, default);
            parsed.Ok? && ParsedSort(Some(TokenOf(parsed.value)), allowed, default) == parsed
  {
    AcceptedFields(sort, allowed);
    CleanTokenParsesBack(ReadFields(Split(sort, ","), allowed).value, allowed, default);
  }

  // ------------------------------------------------------------------- first mentions

  predicate Mentions(raws: seq<string>, i: nat, name: string)
    requires i < |raws|
  {
    ReadMention(raws[i]).Some? && ReadMention(raws[i]).value.name == name
  }

  /** Field k is what piece `at[k]` asks for, and no earlier piece names it. */
  predicate FirstMentions(raws: seq<string>, fields: seq<SortField>, at: seq<nat>) {
    && |at| == |fields|
    && (forall k | 0 <= k < |at| ::
          && at[k] < |raws|
          && ReadMention(raws[at[k]]) == Some(Mention(fields[k].name, fields[k].direction))
          && forall i: nat | i < at[k] :: !Mentions(raws, i, fields[k].name))
    && (forall j, k | 0 <= j < k < |at| :: at[j] < at[k])
  }

  lemma FirstMentionsExtend(raws: seq<string>, raw: string, fields: seq<SortField>, at: seq<nat>)
    requires FirstMentions(raws, fields, at)
    ensures FirstMentions(raws + [raw], fields, at)
  {
    var more := raws + [raw];
    forall k | 0 <= k < |at|
      ensures ReadMention(more[at[k]]) == Some(Mention(fields[k].name, fields[k].direction))
      ensures forall i: nat | i < at[k] :: !Mentions(more, i, fields[k].name)
    {
      forall i: nat | i < at[k] ensures !Mentions(more, i, fields[k].name) {
        assert !Mentions(raws, i, fields[k].name);
      }
    }
  }

  lemma FirstMentionsAppend(raws: seq<string>, raw: string, fields: seq<SortField>, at: seq<nat>, field: SortField)
    requires FirstMentions(raws, fields, at)
    requires ReadMention(raw) == Some(Mention(field.name, field.direction))
    requires forall i: nat | i < |raws| :: !Mentions(raws, i, field.name)
    ensures FirstMentions(raws + [raw], fields + [field], at + [|raws|])
  {
    FirstMentionsExtend(raws, raw, fields, at);
    forall i: nat | i < |raws| ensures !Mentions(raws + [raw], i, field.name) {
      assert !Mentions(raws, i, field.name);
    }
  }

  /** The result lists exactly the fields mentioned, each once, in the order and with
      the direction of its first mention. */
  lemma {:induction false} FieldsAreFirstMentions(raws: seq<string>, allowed: map<string, SortSpec>)
    returns (at: seq<nat>)
    requires ReadFields(raws, allowed).Ok?
    ensures FirstMentions(raws, ReadFields(raws, allowed).value, at)
    ensures forall i: nat | i < |raws| && ReadMention(raws[i]).Some? ::
              Seen(ReadFields(raws, allowed).value, ReadMention(raws[i]).value.name)
  {
    at := [];
    if raws != [] {
      var fields, after := ReadFields(Front(raws), allowed).value, ReadFields(raws, allowed).value;
      at := FieldsAreFirstMentions(Front(raws), allowed);
      assert raws == Front(raws) + [Last(raws)];
      if fields == after {
        FirstMentionsExtend(Front(raws), Last(raws), fields, at);
      } else {
        var field := Last(after);
        SeenAfterAppend(fields, field);
        FirstMentionsAppend(Front(raws), Last(raws), fields, at, field);
        at := at + [|raws| - 1];
      }
    }
  }

  predicate Supported(raw: string, allowed: map<string, SortSpec>) {
    ReadMention(raw).Some? ==> ReadMention(raw).value.name in allowed
  }

  lemma SeenAreAllowed(fields: seq<SortField>, raw: string, allowed: map<string, SortSpec>)
    requires AllAllowed(fields, allowed)
    ensures ReadField(fields, raw, allowed).Ok? <==> Supported(raw, allowed)
  {
  }

  /** Parsing accepts exactly the sorts whose every mention is of an allowed field. */
  lemma {:induction false} AcceptsExactlySupported(raws: seq<string>, allowed: map<string, SortSpec>)
    ensures ReadFields(raws, allowed).Ok? <==> forall k | 0 <= k < |raws| :: Supported(raws[k], allowed)
  {
    if raws != [] {
      AcceptsExactlySupported(Front(raws), allowed);
      assert forall k | 0 <= k < |raws| - 1 :: raws[k] == Front(raws)[k];
      if ReadFields(Front(raws), allowed).Ok? {
        ParsedFieldsAreAllowed(Front(raws), allowed);
        SeenAreAllowed(ReadFields(Front(raws), allowed).value, Last(raws), allowed);
      }
    }
  }

  /** A refusal names the first mention that is not allowed. */
  lemma {:induction false} RefusesFirstUnsupported(raws: seq<string>, allowed: map<string, SortSpec>)
    returns (at: nat)
    requires ReadFields(raws, allowed).Err?
    ensures at < |raws| && Mentions(raws, at, ReadFields(raws, allowed).error)
    ensures ReadFields(raws, allowed).error !in allowed
    ensures forall k | 0 <= k < at :: Supported(raws[k], allowed)
  {
    if ReadFields(Front(raws), allowed).Err? {
      at := RefusesFirstUnsupported(Front(raws), allowed);
    } else {
      at := |raws| - 1;
      AcceptsExactlySupported(Front(raws), allowed);
      ParsedFieldsAreAllowed(Front(raws), allowed);
      assert forall k | 0 <= k < at :: raws[k] == Front(raws)[k];
    }
  }
}
