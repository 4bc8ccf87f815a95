/**
 What a condition says when its JSON is read directly, key by key and operator name by operator name
 (internal/policy/compiler/schema.go:99-113 lists the names).  Nothing here goes through the compiler's
 case distinction; the lemmas below compare the two.
 */
module AuthorReading {
  import opened Text
  import opened Json
  import opened Expressions
  import opened ExpressionReader
  import opened RegoTests

  // ---------------------------------------------------------------- one comparison

  ghost predicate HasPart(field: Json, value: Json) {
    field.String? && value.String? && exists a: string, b: string :: field.text == a + value.text + b
  }

  ghost predicate HasStart(field: Json, value: Json) {
    field.String? && value.String? && exists b: string :: field.text == value.text + b
  }

  ghost predicate HasEnd(field: Json, value: Json) {
    field.String? && value.String? && exists a: string :: field.text == a + value.text
  }

  predicate Lists(list: Json, value: Json) {
    list.Array? && exists i :: 0 <= i < |list.items| && list.items[i] == value
  }

  /** What the operator called `name` says of a present field. */
  ghost predicate Satisfies(field: Json, name: string, value: Json, env: Env) {
    match name
    case "eq" => field == value
    case "ne" => field != value
    case "gt" => env.less(value, field)
    case "gte" => env.less(value, field) || field == value
    case "lt" => env.less(field, value)
    case "lte" => env.less(field, value) || field == value
    case "contains" => HasPart(field, value)
    case "startswith" => HasStart(field, value)
    case "endswith" => HasEnd(field, value)
    case "matches" => field.String? && value.String? && env.regex(value.text, field.text)
    case "in" => Lists(value, field)
    case _ => false
  }

  /** The comparison of a field that must be present; only `not_in` is also true of an absent one. */
  ghost predicate FieldSays(path: string, name: string, value: Json, env: Env) {
    var field := FieldValue(path, env);
    if name == "not_in" then field.None? || !Satisfies(field.value, "in", value, env)
    else field.Some? && Satisfies(field.value, name, value, env)
  }

  const OPERATORS: set<string> :=
    {"eq", "ne", "gt", "gte", "lt", "lte", "contains", "startswith", "endswith", "matches", "in", "not_in"}

  // ---------------------------------------------------------------- one condition

  /** A key that is taken for a field path: a letter, then letters, digits, `_` and `.`, and no keyword. */
  predicate NamesField(key: string) {
    && key !in {"all", "any", "not", "field", "op", "value", "field_equals", "field_in", "field_matches", "tool_in", "agent_in"}
    && |key| > 0 && ('a' <= key[0] <= 'z' || 'A' <= key[0] <= 'Z')
    && forall i :: 0 <= i < |key| ==>
         'a' <= key[i] <= 'z' || 'A' <= key[i] <= 'Z' || '0' <= key[i] <= '9' || key[i] in {'_', '.'}
  }

  /** The first member whose key is a field path. */
  predicate FirstField(members: seq<Member>, i: nat) {
    i < |members| && NamesField(members[i].key) && forall j :: 0 <= j < i ==> !NamesField(members[j].key)
  }

  /** Every member of a field map compares its field. */
  ghost predicate EachSays(fields: Json, name: string, env: Env) {
    fields.Object? && forall i :: 0 <= i < |fields.members| ==> FieldSays(fields.members[i].key, name, fields.members[i].value, env)
  }

  function ValueOr(e: Json, key: string): Json
    requires e.Object?
  {
    if HasField(e, key) then Field(e, key).value else Null
  }

  /** A condition without logical operators. */
  ghost predicate LeafSays(e: Json, env: Env)
    requires e.Object?
  {
    if HasField(e, "tool_in") then FieldSays("request.tool", "in", Field(e, "tool_in").value, env)
    else if HasField(e, "agent_in") then FieldSays("agent.id", "in", Field(e, "agent_in").value, env)
    else if HasField(e, "field_equals") then EachSays(Field(e, "field_equals").value, "eq", env)
    else if HasField(e, "field_in") then EachSays(Field(e, "field_in").value, "in", env)
    else if HasField(e, "field_matches") then EachSays(Field(e, "field_matches").value, "matches", env)
    else if HasField(e, "field") then
      && HasString(e, "field") && HasString(e, "op")
      && FieldSays(Field(e, "field").value.text, Field(e, "op").value.text, ValueOr(e, "value"), env)
    else exists i: nat :: FirstField(e.members, i) && FieldSays(e.members[i].key, "eq", e.members[i].value, env)
  }

  /** What the author wrote: `all`, `any` and `not` are conjunction, disjunction and negation. */
  ghost predicate JsonHolds(e: Json, env: Env) {
    && e.Object?
    && if HasField(e, "all") then
         var all := Field(e, "all").value;
         all.Array? && forall i :: 0 <= i < |all.items| ==> JsonHolds(all.items[i], env)
       else if HasField(e, "any") then
         var any := Field(e, "any").value;
         any.Array? && exists i :: 0 <= i < |any.items| && JsonHolds(any.items[i], env)
       else if HasField(e, "not") then !JsonHolds(Field(e, "not").value, env)
       else LeafSays(e, env)
  }

  // ---------------------------------------------------------------- what the compiler can read

  predicate ListsOfStrings(fields: Json) {
    fields.Object? && forall i :: 0 <= i < |fields.members| ==> IsStringList(fields.members[i].value)
  }

  predicate Patterns(fields: Json) {
    fields.Object? && forall i :: 0 <= i < |fields.members| ==> fields.members[i].value.String?
  }

  predicate ReadableLeaf(e: Json)
    requires e.Object?
  {
    if HasField(e, "tool_in") then IsStringList(Field(e, "tool_in").value)
    else if HasField(e, "agent_in") then IsStringList(Field(e, "agent_in").value)
    else if HasField(e, "field_equals") then Field(e, "field_equals").value.Object?
    else if HasField(e, "field_in") then ListsOfStrings(Field(e, "field_in").value)
    else if HasField(e, "field_matches") then Patterns(Field(e, "field_matches").value)
    else if HasField(e, "field") then
      && HasString(e, "field") && HasString(e, "op") && Field(e, "op").value.text in OPERATORS
      && (Field(e, "op").value.text in {"in", "not_in"} ==> IsStringList(ValueOr(e, "value")))
    else exists m :: m in e.members && NamesField(m.key)
  }

  predicate Readable(e: Json) {
    && e.Object?
    && if HasField(e, "all") then
         var all := Field(e, "all").value;
         all.Array? && forall i :: 0 <= i < |all.items| ==> Readable(all.items[i])
       else if HasField(e, "any") then
         var any := Field(e, "any").value;
         any.Array? && forall i :: 0 <= i < |any.items| ==> Readable(any.items[i])
       else if HasField(e, "not") then Readable(Field(e, "not").value)
       else ReadableLeaf(e)
  }

  // ---------------------------------------------------------------- operators

  /** The four operators that look inside the field or the value. */
  lemma {:induction false} InnerOperators(field: Json, value: Json, env: Env)
    ensures Compares(Contains, field, value, env) <==> HasPart(field, value)
    ensures Compares(StartsWith, field, value, env) <==> HasStart(field, value)
    ensures Compares(EndsWith, field, value, env) <==> HasEnd(field, value)
    ensures Compares(In, field, value, env) <==> Lists(value, field)
  {
    if field.String? && value.String? {
      SubstringIff(field.text, value.text);
      PrefixIff(field.text, value.text);
      SuffixIff(field.text, value.text);
    }
  }

  function NameOf(op: Operator): string {
    match op
    case Equals => "eq"
    case NotEquals => "ne"
    case Greater => "gt"
    case GreaterEq => "gte"
    case Less => "lt"
    case LessEq => "lte"
    case Contains => "contains"
    case StartsWith => "startswith"
    case EndsWith => "endswith"
    case Matches => "matches"
    case In => "in"
  }

  lemma {:induction false} NameFound(name: string, op: Operator)
    requires OperatorNamed(name) == Some(Plain(op))
    ensures name == NameOf(op)
  {
  }

  lemma {:induction false} OrderName(op: Operator, field: Json, value: Json, env: Env)
    requires op in {Equals, NotEquals, Greater, GreaterEq, Less, LessEq, Matches}
    ensures Compares(op, field, value, env) <==> Satisfies(field, NameOf(op), value, env)
  {
  }

  lemma {:induction false} InnerName(op: Operator, field: Json, value: Json, env: Env)
    requires op in {Contains, StartsWith, EndsWith, In}
    ensures Compares(op, field, value, env) <==> Satisfies(field, NameOf(op), value, env)
  {
    InnerOperators(field, value, env);
  }

  lemma {:induction false} NameMeans(op: Operator, field: Json, value: Json, env: Env)
    ensures Compares(op, field, value, env) <==> Satisfies(field, NameOf(op), value, env)
  {
    if op in {Contains, StartsWith, EndsWith, In} { InnerName(op, field, value, env); } else { OrderName(op, field, value, env); }
  }

  /** An operator found under a name compares as the name says. */
  lemma {:induction false} OperatorMeans(name: string, op: Operator, field: Json, value: Json, env: Env)
    requires OperatorNamed(name) == Some(Plain(op))
    ensures Compares(op, field, value, env) <==> Satisfies(field, name, value, env)
  {
    NameFound(name, op);
    NameMeans(op, field, value, env);
  }

  /** Exactly the listed names are operators. */
  lemma {:induction false} OperatorKnown(name: string)
    ensures OperatorNamed(name).Some? <==> name in OPERATORS
    ensures OperatorNamed(name) == Some(Negated) <==> name == "not_in"
    ensures OperatorNamed(name) == Some(Plain(In)) <==> name == "in"
  {
  }

  lemma {:induction false} TestSays(path: string, name: string, op: Operator, value: Json, env: Env)
    requires OperatorNamed(name) == Some(Plain(op))
    ensures TestHolds(Test(path, op, value), env) <==> FieldSays(path, name, value, env)
  {
    OperatorKnown(name);
    var field := FieldValue(path, env);
    if field.Some? { OperatorMeans(name, op, field.value, value, env); }
  }

  lemma {:induction false} ThreeNames()
    ensures OperatorNamed("eq") == Some(Plain(Equals)) && OperatorNamed("in") == Some(Plain(In))
    ensures OperatorNamed("matches") == Some(Plain(Matches))
  {
  }

  // ---------------------------------------------------------------- conditions without logical operators

  lemma {:induction false} OneTest(t: Test, env: Env)
    ensures Holds(Tests([t]), Truth(env)) <==> TestHolds(t, env)
  {
    assert [t][0] == t;
  }

  lemma {:induction false} ListMeans(path: string, values: Json, env: Env)
    requires ReadList(path, values).Ok?
    ensures Holds(ReadList(path, values).value, Truth(env)) <==> FieldSays(path, "in", values, env)
  {
    ThreeNames();
    OneTest(Test(path, In, values), env);
    TestSays(path, "in", In, values, env);
  }

  lemma {:induction false} FieldMapMeans(fields: Json, name: string, op: Operator, env: Env)
    requires ReadFieldMap(fields, op).Ok? && OperatorNamed(name) == Some(Plain(op))
    ensures Holds(ReadFieldMap(fields, op).value, Truth(env)) <==> EachSays(fields, name, env)
  {
    var tests := MemberTests(fields.members, op);
    forall i | 0 <= i < |tests|
      ensures TestHolds(tests[i], env) <==> FieldSays(fields.members[i].key, name, fields.members[i].value, env)
    {
      TestSays(fields.members[i].key, name, op, fields.members[i].value, env);
    }
  }

  lemma {:induction false} FieldOpMeans(path: string, e: Json, env: Env)
    requires e.Object? && ReadFieldOp(path, e).Ok?
    ensures HasString(e, "op")
    ensures Holds(ReadFieldOp(path, e).value, Truth(env)) <==> FieldSays(path, Field(e, "op").value.text, ValueOr(e, "value"), env)
  {
    var name, value := Field(e, "op").value.text, ValueOr(e, "value");
    var op := OperatorNamed(name).value;
    OperatorKnown(name);
    ThreeNames();
    if op.Negated? {
      TestSays(path, "in", In, value, env);
    } else {
      OneTest(Test(path, op.op, value), env);
      TestSays(path, name, op.op, value, env);
    }
  }

  lemma {:induction false} FieldPathIff(key: string)
    ensures IsFieldPath(key) <==> NamesField(key)
  {
  }

  /** The comparison read off the members is the first field path's. */
  lemma {:induction false} ComparisonReads(members: seq<Member>)
    ensures ReadComparison(members).Ok? <==> exists m :: m in members && NamesField(m.key)
    ensures ReadComparison(members).Ok? ==>
      exists i: nat :: FirstField(members, i) && ReadComparison(members).value == Tests([Test(members[i].key, Equals, members[i].value)])
  {
    if members != [] {
      FieldPathIff(members[0].key);
      if NamesField(members[0].key) {
        assert members[0] in members && FirstField(members, 0);
      } else {
        ComparisonReads(members[1..]);
        assert forall m :: m in members <==> m == members[0] || m in members[1..];
        if ReadComparison(members).Ok? {
          var i: nat :| FirstField(members[1..], i) &&
            ReadComparison(members[1..]).value == Tests([Test(members[1..][i].key, Equals, members[1..][i].value)]);
          LaterField(members, i);
        }
      }
    }
  }

  lemma {:induction false} LaterField(members: seq<Member>, i: nat)
    requires members != [] && !NamesField(members[0].key) && FirstField(members[1..], i)
    ensures FirstField(members, i + 1) && members[i + 1] == members[1..][i]
  {
    forall j | 0 <= j < i + 1 ensures !NamesField(members[j].key) {
      if j > 0 { assert members[j] == members[1..][j - 1]; }
    }
  }

  lemma {:induction false} ComparisonMeans(members: seq<Member>, env: Env)
    requires ReadComparison(members).Ok?
    ensures Holds(ReadComparison(members).value, Truth(env)) <==>
      exists i: nat :: FirstField(members, i) && FieldSays(members[i].key, "eq", members[i].value, env)
  {
    ComparisonReads(members);
    var i: nat :| FirstField(members, i) && ReadComparison(members).value == Tests([Test(members[i].key, Equals, members[i].value)]);
    ThreeNames();
    OneTest(Test(members[i].key, Equals, members[i].value), env);
    TestSays(members[i].key, "eq", Equals, members[i].value, env);
    forall j: nat | FirstField(members, j) ensures j == i { }
  }

  lemma {:induction false} LeafMeans(e: Json, env: Env)
    requires e.Object? && ReadLeaf(e).Ok?
    ensures Holds(ReadLeaf(e).value, Truth(env)) <==> LeafSays(e, env)
  {
    ThreeNames();
    if HasField(e, "tool_in") { ListMeans("request.tool", Field(e, "tool_in").value, env); }
    else if HasField(e, "agent_in") { ListMeans("agent.id", Field(e, "agent_in").value, env); }
    else if HasField(e, "field_equals") { FieldMapMeans(Field(e, "field_equals").value, "eq", Equals, env); }
    else if HasField(e, "field_in") { FieldMapMeans(Field(e, "field_in").value, "in", In, env); }
    else if HasField(e, "field_matches") { FieldMapMeans(Field(e, "field_matches").value, "matches", Matches, env); }
    else if HasField(e, "field") { FieldOpMeans(Field(e, "field").value.text, e, env); }
    else { ComparisonMeans(e.members, env); }
  }

  lemma {:induction false} FieldOpReads(path: string, e: Json)
    requires e.Object?
    ensures ReadFieldOp(path, e).Ok? <==>
      && HasString(e, "op") && Field(e, "op").value.text in OPERATORS
      && (Field(e, "op").value.text in {"in", "not_in"} ==> IsStringList(ValueOr(e, "value")))
  {
    if HasString(e, "op") { OperatorKnown(Field(e, "op").value.text); }
  }

  lemma {:induction false} FieldMapReads(fields: Json)
    ensures ReadFieldMap(fields, Equals).Ok? <==> fields.Object?
    ensures ReadFieldMap(fields, In).Ok? <==> ListsOfStrings(fields)
    ensures ReadFieldMap(fields, Matches).Ok? <==> Patterns(fields)
  {
  }

  lemma {:induction false} LeafReads(e: Json)
    requires e.Object?
    ensures ReadLeaf(e).Ok? <==> ReadableLeaf(e)
  {
    if HasField(e, "tool_in") || HasField(e, "agent_in") {
    } else if HasField(e, "field_equals") { FieldMapReads(Field(e, "field_equals").value); }
    else if HasField(e, "field_in") { FieldMapReads(Field(e, "field_in").value); }
    else if HasField(e, "field_matches") { FieldMapReads(Field(e, "field_matches").value); }
    else if HasField(e, "field") {
      if HasString(e, "field") { FieldOpReads(Field(e, "field").value.text, e); }
    } else { ComparisonReads(e.members); }
  }

  // ---------------------------------------------------------------- every condition

  /** The compiler's reading of a condition, at any depth, holds of exactly the inputs that the
      condition's JSON holds of. */
  lemma {:induction false} ReadMeans(e: Json, env: Env)
    requires e.Object? && ReadExpr(e).Ok?
    ensures Holds(ReadExpr(e).value, Truth(env)) <==> JsonHolds(e, env)
    decreases e, 1
  {
    if HasField(e, "all") {
      ItemsMean(Field(e, "all").value.items, env);
    } else if HasField(e, "any") {
      ItemsMean(Field(e, "any").value.items, env);
    } else if HasField(e, "not") {
      ReadMeans(Field(e, "not").value, env);
    } else {
      LeafMeans(e, env);
    }
  }

  lemma {:induction false} ItemsMean(items: seq<Json>, env: Env)
    requires ReadItems(items).Ok?
    ensures forall i :: 0 <= i < |items| ==> (Holds(ReadItems(items).value[i], Truth(env)) <==> JsonHolds(items[i], env))
    decreases items, 0
  {
    if items != [] {
      ReadMeans(items[0], env);
      ItemsMean(items[1..], env);
      var read, rest := ReadItems(items).value, ReadItems(items[1..]).value;
      forall i | 0 <= i < |items| ensures Holds(read[i], Truth(env)) <==> JsonHolds(items[i], env) {
        if i > 0 { assert read[i] == rest[i - 1] && items[i] == items[1..][i - 1]; }
      }
    }
  }

  /** The compiler reads exactly the readable conditions. */
  lemma {:induction false} ReadIff(e: Json)
    requires e.Object?
    ensures ReadExpr(e).Ok? <==> Readable(e)
    decreases e, 1
  {
    if HasField(e, "all") {
      if Field(e, "all").value.Array? { ItemsReadIff(Field(e, "all").value.items); }
    } else if HasField(e, "any") {
      if Field(e, "any").value.Array? { ItemsReadIff(Field(e, "any").value.items); }
    } else if HasField(e, "not") {
      if Field(e, "not").value.Object? { ReadIff(Field(e, "not").value); }
    } else {
      LeafReads(e);
    }
  }

  lemma {:induction false} ItemsReadIff(items: seq<Json>)
    ensures ReadItems(items).Ok? <==> forall i :: 0 <= i < |items| ==> Readable(items[i])
    decreases items, 0
  {
    if items != [] {
      if items[0].Object? { ReadIff(items[0]); }
      ItemsReadIff(items[1..]);
      assert forall i :: 0 <= i < |items[1..]| ==> items[1..][i] == items[i + 1];
      if forall i :: 0 <= i < |items[1..]| ==> Readable(items[1..][i]) {
        forall i | 1 <= i < |items| ensures Readable(items[i]) { assert items[i] == items[1..][i - 1]; }
      }
    }
  }

  // ---------------------------------------------------------------- the validator

  /** No object has a second key that the validator looks at and the compiler ignores. */
  predicate SingleKeyed(e: Json) {
    && e.Object?
    && if HasField(e, "all") then
         var all := Field(e, "all").value;
         && !HasField(e, "any") && !HasField(e, "not") && !HasField(e, "field")
         && all.Array? && forall i :: 0 <= i < |all.items| ==> SingleKeyed(all.items[i])
       else if HasField(e, "any") then
         var any := Field(e, "any").value;
         && !HasField(e, "not") && !HasField(e, "field")
         && any.Array? && forall i :: 0 <= i < |any.items| ==> SingleKeyed(any.items[i])
       else if HasField(e, "not") then !HasField(e, "field") && SingleKeyed(Field(e, "not").value)
       else HasField(e, "field") ==> forall key :: key in {"tool_in", "agent_in", "field_equals", "field_in", "field_matches"} ==> !HasField(e, key)
  }

  /** The validator rejects nothing that the compiler reads, unless it looks at a key the compiler ignores. */
  lemma {:induction false} ReadableIsValid(e: Json)
    requires Readable(e) && SingleKeyed(e)
    ensures ValidExpression(e)
  {
    if HasField(e, "all") {
      var items := Field(e, "all").value.items;
      forall i | 0 <= i < |items| ensures ValidExpression(items[i]) { ReadableIsValid(items[i]); }
    } else if HasField(e, "any") {
      var items := Field(e, "any").value.items;
      forall i | 0 <= i < |items| ensures ValidExpression(items[i]) { ReadableIsValid(items[i]); }
    } else if HasField(e, "not") {
      ReadableIsValid(Field(e, "not").value);
    } else if HasField(e, "field") {
      OperatorKnown(Field(e, "op").value.text);
    }
  }
}
