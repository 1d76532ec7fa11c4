/** The condition language of authorization policies: validation before storing, and
    evaluation. Comparators on resolved operands are a parameter. */
module Evaluator {
  import opened Wrappers
  import opened JsonValues

  datatype PolicyError =
    | NotAnObject
    | NotASingleOperator
    | UnsupportedOperator(operator: string)
    | ListExpected(operator: string)
    | ComparatorFailed(message: string)

  datatype Objection = TooComplex(depth: int) | Invalid(error: PolicyError)

  /** Operator and payload to a truth value, or the message of its PolicyInvalidError. */
  type Comparator = (string, Json) -> Result<bool, string>

  const COMPARATORS: set<string> :=
    {"eq", "ne", "in", "not_in", "gt", "gte", "lt", "lte", "contains", "starts_with", "time_between", "date_between"}

  const ALLOWED_OPERATORS: set<string> := {"all", "any", "not"} + COMPARATORS

  // ------------------------------------------------------------------- evaluation

  function Evaluate(condition: Json, compare: Comparator): Result<bool, PolicyError> {
    match condition
    case Null => Ok(true)
    case Bool(truth) => Ok(truth)
    case Object(fields) =>
      if fields == map[] then Ok(true)
      else if |fields| != 1 then Err(NotASingleOperator)
      else
        var operator := SoleKey(fields);
        var payload := fields[operator];
        if operator !in ALLOWED_OPERATORS then Err(UnsupportedOperator(operator))
        else if operator == "all" then
          if payload.List? then EvaluateAll(payload.items, compare) else Err(ListExpected(operator))
        else if operator == "any" then
          if payload.List? then EvaluateAny(payload.items, compare) else Err(ListExpected(operator))
        else if operator == "not" then Negate(Evaluate(payload, compare))
        else FromComparator(compare(operator, payload))
    case _ => Err(NotAnObject)
  }

  /** Stops at the first item that is false or fails. */
  function EvaluateAll(items: seq<Json>, compare: Comparator): Result<bool, PolicyError> {
    if items == [] then Ok(true)
    else
      var first := Evaluate(items[0], compare);
      if first == Ok(true) then EvaluateAll(items[1..], compare) else first
  }

  /** Stops at the first item that is true or fails. */
  function EvaluateAny(items: seq<Json>, compare: Comparator): Result<bool, PolicyError> {
    if items == [] then Ok(false)
    else
      var first := Evaluate(items[0], compare);
      if first == Ok(false) then EvaluateAny(items[1..], compare) else first
  }

  function Negate(r: Result<bool, PolicyError>): Result<bool, PolicyError> {
    match r
    case Ok(truth) => Ok(!truth)
    case Err(error) => Err(error)
  }

  function FromComparator(r: Result<bool, string>): Result<bool, PolicyError> {
    match r
    case Ok(truth) => Ok(truth)
    case Err(message) => Err(ComparatorFailed(message))
  }

  // ------------------------------------------------------------------- validation

  function ConditionDepth(condition: Json, depth: nat): (deepest: nat)
    ensures deepest >= depth
  {
    match condition
    case Object(fields) =>
      if |fields| != 1 then depth
      else
        var operator := SoleKey(fields);
        var payload := fields[operator];
        if operator == "all" || operator == "any" then
          if payload.List? && payload.items != [] then DeepestItem(payload.items, depth + 1) else depth + 1
        else if operator == "not" then ConditionDepth(payload, depth + 1)
        else depth + 1
    case _ => depth
  }

  function DeepestItem(items: seq<Json>, depth: nat): (deepest: nat)
    requires items != []
    ensures deepest >= depth
  {
    var first := ConditionDepth(items[0], depth);
    if |items| == 1 then first
    else
      var others := DeepestItem(items[1..], depth);
      if first >= others then first else others
  }

  /** The first objection to the shape of a condition, if any. */
  function ValidateStructure(condition: Json): Option<PolicyError> {
    match condition
    case Null => None
    case Bool(_) => None
    case Object(fields) =>
      if |fields| != 1 then Some(NotASingleOperator)
      else
        var operator := SoleKey(fields);
        var payload := fields[operator];
        if operator !in ALLOWED_OPERATORS then Some(UnsupportedOperator(operator))
        else if operator == "all" || operator == "any" then
          if payload.List? then ValidateItems(payload.items) else Some(ListExpected(operator))
        else if operator == "not" then ValidateStructure(payload)
        else None
    case _ => Some(NotAnObject)
  }

  function ValidateItems(items: seq<Json>): Option<PolicyError> {
    if items == [] then None
    else
      var first := ValidateStructure(items[0]);
      if first.Some? then first else ValidateItems(items[1..])
  }

  function ValidateCondition(condition: Json, maxDepth: int): Option<Objection> {
    if condition == Object(map[]) then None
    else
      var depth := ConditionDepth(condition, 1);
      if depth > maxDepth then Some(TooComplex(depth))
      else
        match ValidateStructure(condition)
        case None => None
        case Some(error) => Some(Invalid(error))
  }

  // ------------------------------------------------------------------- bounded recursion

  /** Evaluation with a stack of `frames` calls; None when it would need more. */
  function BoundedEvaluate(condition: Json, compare: Comparator, frames: nat): Option<Result<bool, PolicyError>>
    decreases frames, 0, 0
  {
    if frames == 0 then None
    else
      match condition
      case Null => Some(Ok(true))
      case Bool(truth) => Some(Ok(truth))
      case Object(fields) =>
        if fields == map[] then Some(Ok(true))
        else if |fields| != 1 then Some(Err(NotASingleOperator))
        else
          var operator := SoleKey(fields);
          var payload := fields[operator];
          if operator !in ALLOWED_OPERATORS then Some(Err(UnsupportedOperator(operator)))
          else if operator == "all" then
            if payload.List? then BoundedItems(payload.items, true, compare, frames - 1) else Some(Err(ListExpected(operator)))
          else if operator == "any" then
            if payload.List? then BoundedItems(payload.items, false, compare, frames - 1) else Some(Err(ListExpected(operator)))
          else if operator == "not" then
            var inner := BoundedEvaluate(payload, compare, frames - 1);
            if inner.None? then None else Some(Negate(inner.value))
          else Some(FromComparator(compare(operator, payload)))
      case _ => Some(Err(NotAnObject))
  }

  /** `all` goes on while items are true, `any` while they are false. */
  function BoundedItems(items: seq<Json>, goOn: bool, compare: Comparator, frames: nat): Option<Result<bool, PolicyError>>
    decreases frames, 1, |items|
  {
    if items == [] then Some(Ok(goOn))
    else
      var first := BoundedEvaluate(items[0], compare, frames);
      if first == Some(Ok(goOn)) then BoundedItems(items[1..], goOn, compare, frames) else first
  }

  lemma {:induction false} DepthIsEnoughFrames(condition: Json, compare: Comparator, depth: nat, frames: nat)
    requires frames + depth >= ConditionDepth(condition, depth) + 1
    ensures BoundedEvaluate(condition, compare, frames) == Some(Evaluate(condition, compare))
    decreases condition
  {
    if condition.Object? && |condition.fields| == 1 {
      var operator := SoleKey(condition.fields);
      var payload := condition.fields[operator];
      if (operator == "all" || operator == "any") && payload.List? && payload.items != [] {
        DepthIsEnoughForItems(payload.items, operator == "all", compare, depth + 1, frames - 1);
      } else if operator == "not" {
        DepthIsEnoughFrames(payload, compare, depth + 1, frames - 1);
      }
    }
  }

  lemma {:induction false} DepthIsEnoughForItems(items: seq<Json>, goOn: bool, compare: Comparator, depth: nat, frames: nat)
    requires items != [] && frames + depth >= DeepestItem(items, depth) + 1
    ensures BoundedItems(items, goOn, compare, frames)
         == Some(if goOn then EvaluateAll(items, compare) else EvaluateAny(items, compare))
    decreases items
  {
    DepthIsEnoughFrames(items[0], compare, depth, frames);
    if |items| > 1 {
      DepthIsEnoughForItems(items[1..], goOn, compare, depth, frames);
    }
  }

  /** A validated condition evaluates within a stack of `maxDepth` calls (one, for the
      empty condition). */
  lemma ValidatedConditionsStayShallow(condition: Json, maxDepth: int, compare: Comparator)
    requires ValidateCondition(condition, maxDepth) == None
    ensures BoundedEvaluate(condition, compare, if maxDepth > 1 then maxDepth else 1) == Some(Evaluate(condition, compare))
  {
    if condition != Object(map[]) {
      DepthIsEnoughFrames(condition, compare, 1, if maxDepth > 1 then maxDepth else 1);
    }
  }

  // ------------------------------------------------------------------- only comparators fail

  predicate FailsOnlyInComparator(r: Result<bool, PolicyError>) {
    r.Err? ==> r.error.ComparatorFailed?
  }

  lemma {:induction false} SoundStructureFailsOnlyInComparator(condition: Json, compare: Comparator)
    requires ValidateStructure(condition) == None
    ensures FailsOnlyInComparator(Evaluate(condition, compare))
    decreases condition
  {
    if condition.Object? {
      var operator := SoleKey(condition.fields);
      var payload := condition.fields[operator];
      if operator == "all" || operator == "any" {
        SoundItemsFailOnlyInComparator(payload.items, compare);
      } else if operator == "not" {
        SoundStructureFailsOnlyInComparator(payload, compare);
      }
    }
  }

  lemma {:induction false} SoundItemsFailOnlyInComparator(items: seq<Json>, compare: Comparator)
    requires ValidateItems(items) == None
    ensures FailsOnlyInComparator(EvaluateAll(items, compare)) && FailsOnlyInComparator(EvaluateAny(items, compare))
    decreases items
  {
    if items != [] {
      SoundStructureFailsOnlyInComparator(items[0], compare);
      SoundItemsFailOnlyInComparator(items[1..], compare);
    }
  }

  /** Evaluating a validated condition never fails for its shape. */
  lemma ValidatedConditionsFailOnlyInComparators(condition: Json, maxDepth: int, compare: Comparator)
    requires ValidateCondition(condition, maxDepth) == None
    ensures FailsOnlyInComparator(Evaluate(condition, compare))
  {
    if condition != Object(map[]) {
      SoundStructureFailsOnlyInComparator(condition, compare);
    }
  }

  // ------------------------------------------------------------------- De Morgan

  function Operation(operator: string, payload: Json): Json {
    Object(map[operator := payload])
  }

  function Negations(items: seq<Json>): (negated: seq<Json>)
    ensures |negated| == |items| && forall i | 0 <= i < |items| :: negated[i] == Operation("not", items[i])
  {
    seq(|items|, i requires 0 <= i < |items| => Operation("not", items[i]))
  }

  lemma OperationShape(operator: string, payload: Json)
    ensures var fields := Operation(operator, payload).fields;
            |fields| == 1 && SoleKey(fields) == operator && fields[operator] == payload
  {
    var fields := Operation(operator, payload).fields;
    SoleKeyIsUnique(fields, SoleKey(fields), operator);
  }

  lemma EvaluateNot(payload: Json, compare: Comparator)
    ensures Evaluate(Operation("not", payload), compare) == Negate(Evaluate(payload, compare))
  {
    OperationShape("not", payload);
  }

  lemma EvaluateLists(items: seq<Json>, compare: Comparator)
    ensures Evaluate(Operation("all", List(items)), compare) == EvaluateAll(items, compare)
    ensures Evaluate(Operation("any", List(items)), compare) == EvaluateAny(items, compare)
  {
    OperationShape("all", List(items));
    OperationShape("any", List(items));
  }

  lemma {:induction false} NegationsEvaluate(items: seq<Json>, compare: Comparator)
    ensures EvaluateAny(Negations(items), compare) == Negate(EvaluateAll(items, compare))
    ensures EvaluateAll(Negations(items), compare) == Negate(EvaluateAny(items, compare))
    decreases |items|
  {
    if items != [] {
      EvaluateNot(items[0], compare);
      NegationsEvaluate(items[1..], compare);
      assert Negations(items)[1..] == Negations(items[1..]);
    }
  }

  /** Negating `all` is `any` of the negations and the other way round, down to which
      item's failure surfaces. */
  lemma DeMorgan(items: seq<Json>, compare: Comparator)
    ensures Evaluate(Operation("not", Operation("all", List(items))), compare)
         == Evaluate(Operation("any", List(Negations(items))), compare)
    ensures Evaluate(Operation("not", Operation("any", List(items))), compare)
         == Evaluate(Operation("all", List(Negations(items))), compare)
  {
    EvaluateNot(Operation("all", List(items)), compare);
    EvaluateNot(Operation("any", List(items)), compare);
    EvaluateLists(items, compare);
    EvaluateLists(Negations(items), compare);
    NegationsEvaluate(items, compare);
  }

  lemma DoubleNegation(condition: Json, compare: Comparator)
    ensures Evaluate(Operation("not", Operation("not", condition)), compare) == Evaluate(condition, compare)
  {
    EvaluateNot(Operation("not", condition), compare);
    EvaluateNot(condition, compare);
  }

  // ------------------------------------------------------------------- short circuits

  /** Item k is the first not to evaluate to `goOn`. */
  predicate FirstToDecide(items: seq<Json>, goOn: bool, compare: Comparator, k: nat) {
    && k < |items| && Evaluate(items[k], compare) != Ok(goOn)
    && forall i | 0 <= i < k :: Evaluate(items[i], compare) == Ok(goOn)
  }

  /** With no item to decide, `all` is true and `any` is false. */
  lemma {:induction false} NoneDecides(items: seq<Json>, goOn: bool, compare: Comparator)
    requires forall i | 0 <= i < |items| :: Evaluate(items[i], compare) == Ok(goOn)
    ensures (if goOn then EvaluateAll(items, compare) else EvaluateAny(items, compare)) == Ok(goOn)
    decreases |items|
  {
    if items != [] {
      assert Evaluate(items[0], compare) == Ok(goOn);
      forall i | 0 <= i < |items[1..]| ensures Evaluate(items[1..][i], compare) == Ok(goOn) {
        assert items[1..][i] == items[i + 1];
      }
      NoneDecides(items[1..], goOn, compare);
    }
  }

  /** `all` answers with its first item that is not true, `any` with its first that is
      not false; failures of later items never surface. */
  lemma {:induction false} FirstToDecideDecides(items: seq<Json>, goOn: bool, compare: Comparator, k: nat)
    requires FirstToDecide(items, goOn, compare, k)
    ensures (if goOn then EvaluateAll(items, compare) else EvaluateAny(items, compare)) == Evaluate(items[k], compare)
    decreases k
  {
    if k > 0 {
      assert Evaluate(items[0], compare) == Ok(goOn);
      assert FirstToDecide(items[1..], goOn, compare, k - 1);
      FirstToDecideDecides(items[1..], goOn, compare, k - 1);
    }
  }

  // ------------------------------------------------------------------- nested empty conditions

  const EMPTY := Object(map[])

  /** An empty object stands as a condition somewhere below the top. */
  predicate EmptyBelow(condition: Json) {
    match condition
    case Object(fields) =>
      |fields| == 1 &&
      var operator := SoleKey(fields);
      var payload := fields[operator];
      if operator == "not" then payload == EMPTY || EmptyBelow(payload)
      else (operator == "all" || operator == "any") && payload.List? && EmptyAmong(payload.items)
    case _ => false
  }

  predicate EmptyAmong(items: seq<Json>) {
    items != [] && (items[0] == EMPTY || EmptyBelow(items[0]) || EmptyAmong(items[1..]))
  }

  lemma {:induction false} SoundStructureHasNoEmptyBelow(condition: Json)
    requires ValidateStructure(condition) == None
    ensures condition != EMPTY && !EmptyBelow(condition)
    decreases condition
  {
    if condition.Object? {
      var operator := SoleKey(condition.fields);
      var payload := condition.fields[operator];
      if operator == "all" || operator == "any" {
        SoundItemsHaveNoEmpty(payload.items);
      } else if operator == "not" {
        SoundStructureHasNoEmptyBelow(payload);
      }
    }
  }

  lemma {:induction false} SoundItemsHaveNoEmpty(items: seq<Json>)
    requires ValidateItems(items) == None
    ensures !EmptyAmong(items)
    decreases items
  {
    if items != [] {
      SoundStructureHasNoEmptyBelow(items[0]);
      SoundItemsHaveNoEmpty(items[1..]);
    }
  }

  /** Validation is stricter than evaluation: an empty object counts as true when
      evaluated, but no accepted condition holds one below the top. */
  lemma NestedEmptyConditionIsRefused(condition: Json, maxDepth: int, compare: Comparator)
    ensures Evaluate(EMPTY, compare) == Ok(true) && ValidateCondition(EMPTY, maxDepth) == None
    ensures EmptyBelow(condition) ==> ValidateCondition(condition, maxDepth) != None
  {
    if condition != EMPTY && ValidateStructure(condition) == None {
      SoundStructureHasNoEmptyBelow(condition);
    }
  }

  // ------------------------------------------------------------------- what validation accepts

  predicate Accepted(condition: Json, maxDepth: int) {
    ValidateCondition(condition, maxDepth) == None
  }

  lemma {:induction false} DepthShifts(condition: Json, depth: nat)
    ensures ConditionDepth(condition, depth + 1) == ConditionDepth(condition, depth) + 1
    decreases condition
  {
    if condition.Object? && |condition.fields| == 1 {
      var operator := SoleKey(condition.fields);
      var payload := condition.fields[operator];
      if (operator == "all" || operator == "any") && payload.List? && payload.items != [] {
        DeepestShifts(payload.items, depth + 1);
      } else if operator == "not" {
        DepthShifts(payload, depth + 1);
      }
    }
  }

  lemma {:induction false} DeepestShifts(items: seq<Json>, depth: nat)
    requires items != []
    ensures DeepestItem(items, depth + 1) == DeepestItem(items, depth) + 1
    decreases items
  {
    DepthShifts(items[0], depth);
    if |items| > 1 {
      DeepestShifts(items[1..], depth);
    }
  }

  /** Truth values are accepted at the top; text, numbers, lists and objects of several keys
      never are. */
  lemma PlainAcceptedExactly(condition: Json, maxDepth: int)
    ensures condition.Null? || condition.Bool? ==> (Accepted(condition, maxDepth) <==> maxDepth >= 1)
    ensures condition.Text? || condition.Number? || condition.List? ==> !Accepted(condition, maxDepth)
    ensures condition.Object? && |condition.fields| > 1 ==> !Accepted(condition, maxDepth)
    ensures Accepted(EMPTY, maxDepth)
  {
  }

  lemma ConnectiveParts(operator: string, payload: Json)
    requires operator in {"all", "any"}
    ensures ConditionDepth(Operation(operator, payload), 1)
         == if payload.List? && payload.items != [] then DeepestItem(payload.items, 2) else 2
    ensures ValidateStructure(Operation(operator, payload))
         == if payload.List? then ValidateItems(payload.items) else Some(ListExpected(operator))
  {
    OperationShape(operator, payload);
  }

  lemma NegationParts(payload: Json)
    ensures ConditionDepth(Operation("not", payload), 1) == ConditionDepth(payload, 2)
    ensures ValidateStructure(Operation("not", payload)) == ValidateStructure(payload)
  {
    OperationShape("not", payload);
  }

  lemma ComparisonParts(operator: string, payload: Json)
    requires operator != "all" && operator != "any" && operator != "not"
    ensures ConditionDepth(Operation(operator, payload), 1) == 2
    ensures ValidateStructure(Operation(operator, payload)).None? <==> operator in COMPARATORS
  {
    OperationShape(operator, payload);
    assert operator in ALLOWED_OPERATORS <==> operator in COMPARATORS;
  }

  lemma ComparatorsAre(operator: string)
    ensures operator in COMPARATORS <==>
              operator in {"eq", "ne", "in", "not_in", "gt", "gte", "lt", "lte", "contains", "starts_with", "time_between",
                           "date_between"}
  {
  }

  lemma AcceptedParts(operator: string, payload: Json, maxDepth: int)
    ensures Accepted(Operation(operator, payload), maxDepth) <==>
              && ConditionDepth(Operation(operator, payload), 1) <= maxDepth
              && ValidateStructure(Operation(operator, payload)).None?
  {
    OperationShape(operator, payload);
  }

  /** A comparison is accepted at two levels, whatever it compares; the three connectives and
      the comparators are all there is. */
  lemma ComparisonAcceptedExactly(operator: string, payload: Json, maxDepth: int)
    requires operator != "all" && operator != "any" && operator != "not"
    ensures Accepted(Operation(operator, payload), maxDepth) <==>
              && maxDepth >= 2
              && operator in {"eq", "ne", "in", "not_in", "gt", "gte", "lt", "lte", "contains", "starts_with",
                              "time_between", "date_between"}
  {
    AcceptedParts(operator, payload, maxDepth);
    ComparisonParts(operator, payload);
    ComparatorsAre(operator);
  }

  /** A negation is accepted exactly when what it negates is, one level down, other than the
      empty condition. */
  lemma NegationAcceptedExactly(payload: Json, maxDepth: int)
    ensures Accepted(Operation("not", payload), maxDepth) <==> Sound(payload, maxDepth - 1)
  {
    AcceptedParts("not", payload, maxDepth);
    NegationParts(payload);
    DepthShifts(payload, 1);
  }

  /** What is accepted below the top. */
  predicate Sound(condition: Json, maxDepth: int) {
    condition != EMPTY && Accepted(condition, maxDepth)
  }

  lemma SoundExactly(condition: Json, maxDepth: int)
    ensures Sound(condition, maxDepth) <==> ConditionDepth(condition, 1) <= maxDepth && ValidateStructure(condition).None?
  {
  }

  lemma DeepestOf(items: seq<Json>, maxDepth: int)
    requires |items| > 1
    ensures DeepestItem(items, 1) <= maxDepth
       <==> ConditionDepth(items[0], 1) <= maxDepth && DeepestItem(items[1..], 1) <= maxDepth
    ensures ValidateItems(items).None? <==> ValidateStructure(items[0]).None? && ValidateItems(items[1..]).None?
  {
  }

  lemma {:induction false} ItemsAccepted(items: seq<Json>, maxDepth: int)
    requires items != []
    ensures (DeepestItem(items, 1) <= maxDepth && ValidateItems(items).None?)
       <==> forall i | 0 <= i < |items| :: Sound(items[i], maxDepth)
    decreases |items|
  {
    SoundExactly(items[0], maxDepth);
    if |items| > 1 {
      DeepestOf(items, maxDepth);
      ItemsAccepted(items[1..], maxDepth);
      assert forall i | 0 <= i < |items| - 1 :: items[1..][i] == items[i + 1];
    } else {
      assert items[1..] == [];
    }
  }

  /** A list of conditions is accepted exactly when each of them is, one level down, other
      than the empty condition; an empty list takes up a level of its own. */
  lemma ListAcceptedExactly(operator: string, payload: Json, maxDepth: int)
    requires operator in {"all", "any"}
    ensures Accepted(Operation(operator, payload), maxDepth) <==>
              && payload.List?
              && (if payload.items == [] then maxDepth >= 2
                  else forall i | 0 <= i < |payload.items| :: Sound(payload.items[i], maxDepth - 1))
  {
    AcceptedParts(operator, payload, maxDepth);
    ConnectiveParts(operator, payload);
    if payload.List? && payload.items != [] {
      DeepestShifts(payload.items, 1);
      ItemsAccepted(payload.items, maxDepth - 1);
    }
  }

  /** A comparison means what its comparator says. */
  lemma ComparisonEvaluates(operator: string, payload: Json, compare: Comparator)
    requires operator in {"eq", "ne", "in", "not_in", "gt", "gte", "lt", "lte", "contains", "starts_with", "time_between",
                          "date_between"}
    ensures compare(operator, payload).Ok? ==>
              Evaluate(Operation(operator, payload), compare) == Ok(compare(operator, payload).value)
    ensures compare(operator, payload).Err? ==>
              Evaluate(Operation(operator, payload), compare) == Err(ComparatorFailed(compare(operator, payload).error))
  {
    OperationShape(operator, payload);
  }
}
