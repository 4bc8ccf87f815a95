/**
 The compiler's case distinction on a condition object (internal/policy/compiler/expression.go:24-82)
 and the validator's check of the same object (internal/policy/compiler/validation.go:190-252).

 Keys are tried in a fixed order and only the first one present is used.  The one unchecked type
 assertion, `field.(string)`, is the `Panic` outcome.
 */
module ExpressionReader {
  import opened Text
  import opened Json
  import opened Expressions

  datatype Fault =
    | AllNotArray | AnyNotArray | NotNotObject | ItemNotObject
    | NotStringList | FieldMapNotObject | PatternNotString
    | OpMissing | UnknownOperator | UnknownExpression
    | RejectedByRego
    | InvalidPolicy | LimitNotNumber

  datatype Outcome<+T> = Ok(value: T) | Err(fault: Fault) | Panic

  const KEYWORDS: set<string> :=
    {"all", "any", "not", "field", "op", "value", "field_equals", "field_in", "field_matches", "tool_in", "agent_in"}

  /** `^[a-zA-Z][a-zA-Z0-9_.]*$`, and not a keyword. */
  predicate IsFieldPath(s: string) {
    && s !in KEYWORDS
    && s != "" && IsLetter(s[0])
    && forall i :: 0 <= i < |s| ==> IsLetter(s[i]) || IsDigit(s[i]) || s[i] == '_' || s[i] == '.'
  }

  /** The operator behind an `op` name; `not_in` is `in` under a `not`. */
  datatype NamedOperator = Plain(op: Operator) | Negated

  function OperatorNamed(name: string): Option<NamedOperator> {
    match name
    case "eq" => Some(Plain(Equals))
    case "ne" => Some(Plain(NotEquals))
    case "gt" => Some(Plain(Greater))
    case "gte" => Some(Plain(GreaterEq))
    case "lt" => Some(Plain(Less))
    case "lte" => Some(Plain(LessEq))
    case "contains" => Some(Plain(Contains))
    case "startswith" => Some(Plain(StartsWith))
    case "endswith" => Some(Plain(EndsWith))
    case "matches" => Some(Plain(Matches))
    case "in" => Some(Plain(In))
    case "not_in" => Some(Negated)
    case _ => None
  }

  function ReadExpr(e: Json): Outcome<Expr>
    requires e.Object?
    decreases e, 1
  {
    if HasField(e, "all") then
      var all := Field(e, "all").value;
      if !all.Array? then Err(AllNotArray)
      else
        var items := ReadItems(all.items);
        if items.Ok? then Ok(All(items.value)) else Refail(items)
    else if HasField(e, "any") then
      var any := Field(e, "any").value;
      if !any.Array? then Err(AnyNotArray)
      else
        var items := ReadItems(any.items);
        if items.Ok? then Ok(Any(items.value)) else Refail(items)
    else if HasField(e, "not") then
      var operand := Field(e, "not").value;
      if !operand.Object? then Err(NotNotObject)
      else
        var item := ReadExpr(operand);
        if item.Ok? then Ok(Not(item.value)) else item
    else ReadLeaf(e)
  }

  function ReadItems(items: seq<Json>): (r: Outcome<seq<Expr>>)
    ensures r.Ok? ==> |r.value| == |items|
    decreases items, 0
  {
    if items == [] then Ok([])
    else if !items[0].Object? then Err(ItemNotObject)
    else
      var first := ReadExpr(items[0]);
      if !first.Ok? then Refail(first)
      else
        var rest := ReadItems(items[1..]);
        if rest.Ok? then Ok([first.value] + rest.value) else rest
  }

  function Refail<T, U>(r: Outcome<T>): Outcome<U>
    requires !r.Ok?
  {
    if r.Panic? then Panic else Err(r.fault)
  }

  /** Everything below the logical operators. */
  function ReadLeaf(e: Json): Outcome<Expr>
    requires e.Object?
  {
    if HasField(e, "tool_in") then ReadList("request.tool", Field(e, "tool_in").value)
    else if HasField(e, "agent_in") then ReadList("agent.id", Field(e, "agent_in").value)
    else if HasField(e, "field_equals") then ReadFieldMap(Field(e, "field_equals").value, Equals)
    else if HasField(e, "field_in") then ReadFieldMap(Field(e, "field_in").value, In)
    else if HasField(e, "field_matches") then ReadFieldMap(Field(e, "field_matches").value, Matches)
    else if HasField(e, "field") then
      var field := Field(e, "field").value;
      if !field.String? then Panic else ReadFieldOp(field.text, e)
    else ReadComparison(e.members)
  }

  function ReadList(path: string, values: Json): Outcome<Expr> {
    if IsStringList(values) then Ok(Tests([Test(path, In, values)])) else Err(NotStringList)
  }

  /** `field_equals`, `field_in` and `field_matches`: one line per member, in iteration order. */
  function ReadFieldMap(fields: Json, op: Operator): Outcome<Expr> {
    if !fields.Object? then Err(FieldMapNotObject)
    else if op == In && exists i :: 0 <= i < |fields.members| && !IsStringList(fields.members[i].value) then
      Err(NotStringList)
    else if op == Matches && exists i :: 0 <= i < |fields.members| && !fields.members[i].value.String? then
      Err(PatternNotString)
    else Ok(Tests(MemberTests(fields.members, op)))
  }

  function MemberTests(members: seq<Member>, op: Operator): seq<Test> {
    seq(|members|, i requires 0 <= i < |members| => Test(members[i].key, op, members[i].value))
  }

  function ReadFieldOp(path: string, e: Json): Outcome<Expr>
    requires e.Object?
  {
    if !HasString(e, "op") then Err(OpMissing)
    else
      var value := if HasField(e, "value") then Field(e, "value").value else Null;
      var op := OperatorNamed(Field(e, "op").value.text);
      if op.None? then Err(UnknownOperator)
      else if (op.value.Negated? || op.value == Plain(In)) && !IsStringList(value) then Err(NotStringList)
      else if op.value.Negated? then Ok(NotIn(Test(path, In, value)))
      else Ok(Tests([Test(path, op.value.op, value)]))
  }

  /** A direct comparison takes the first field path the iteration meets and ignores the others. */
  function ReadComparison(members: seq<Member>): Outcome<Expr> {
    if members == [] then Err(UnknownExpression)
    else if IsFieldPath(members[0].key) then Ok(Tests([Test(members[0].key, Equals, members[0].value)]))
    else ReadComparison(members[1..])
  }

  // ---------------------------------------------------------------- validation

  /** validateExpression: checks every logical key present, not only the one the compiler will use. */
  predicate ValidExpression(e: Json)
    requires e.Object?
    decreases e, 1
  {
    && (HasField(e, "all") ==> Field(e, "all").value.Array? && ValidItems(Field(e, "all").value.items))
    && (HasField(e, "any") ==> Field(e, "any").value.Array? && ValidItems(Field(e, "any").value.items))
    && (HasField(e, "not") ==> Field(e, "not").value.Object? && ValidExpression(Field(e, "not").value))
    && (HasField(e, "field") ==>
          && Field(e, "field").value.String?
          && (HasField(e, "op") ==>
                && Field(e, "op").value.String?
                && OperatorNamed(Field(e, "op").value.text).Some?))
  }

  predicate ValidItems(items: seq<Json>)
    decreases items, 0
  {
    forall i :: 0 <= i < |items| ==> items[i].Object? && ValidExpression(items[i])
  }

  /** The failures a validated expression can still meet. */
  predicate LateFault(f: Fault) {
    f in {NotStringList, FieldMapNotObject, PatternNotString, OpMissing, UnknownExpression}
  }

  /** A validated expression never reaches the failing type assertion, at any depth, nor any of the
      faults the validator looks for. */
  lemma {:induction false} ValidatedNeverPanics(e: Json)
    requires e.Object? && ValidExpression(e)
    ensures !ReadExpr(e).Panic?
    ensures ReadExpr(e).Err? ==> LateFault(ReadExpr(e).fault)
    decreases e, 1
  {
    if HasField(e, "all") {
      ValidatedItemsNeverPanic(Field(e, "all").value.items);
    } else if HasField(e, "any") {
      ValidatedItemsNeverPanic(Field(e, "any").value.items);
    } else if HasField(e, "not") {
      ValidatedNeverPanics(Field(e, "not").value);
    } else {
      ReadComparisonFault(e.members);
    }
  }

  lemma {:induction false} ValidatedItemsNeverPanic(items: seq<Json>)
    requires ValidItems(items)
    ensures !ReadItems(items).Panic?
    ensures ReadItems(items).Err? ==> LateFault(ReadItems(items).fault)
    decreases items, 0
  {
    if items != [] {
      ValidatedNeverPanics(items[0]);
      assert forall i :: 0 <= i < |items[1..]| ==> items[1..][i] == items[i + 1];
      ValidatedItemsNeverPanic(items[1..]);
    }
  }

  lemma {:induction false} ReadComparisonFault(members: seq<Member>)
    ensures !ReadComparison(members).Panic?
    ensures ReadComparison(members).Err? ==> ReadComparison(members).fault == UnknownExpression
  {
    if members != [] { ReadComparisonFault(members[1..]); }
  }
}
