/**
 Text that the compiler pastes into a module without quotes: field paths
 (internal/policy/compiler/expression.go:279-284) and the words of comments
 (internal/policy/compiler/templates.go).  `Live` is what Rego's scanner keeps of a text.
 */
module PastedText {
  import opened Text
  import opened Json
  import opened Expressions
  import opened ExpressionReader
  import opened RegoTests
  import opened LiteralPrinter

  // ---------------------------------------------------------------- the scanner

  /** Where the scanner is: in code, in a quoted string, behind a backslash there, in a raw string, or
      in a comment, which ends with its line. */
  datatype Mode = Code | Quoted | Backslash | Raw | Comment

  function Next(mode: Mode, c: char): Mode {
    match mode
    case Code => if c == '#' then Comment else if c == '"' then Quoted else if c == '`' then Raw else Code
    case Quoted => if c == '"' then Code else if c == '\\' then Backslash else Quoted
    case Backslash => Quoted
    case Raw => if c == '`' then Code else Raw
    case Comment => if c == '\n' then Code else Comment
  }

  function ModeAfter(s: string, mode: Mode): Mode {
    if s == "" then mode else ModeAfter(s[1..], Next(mode, s[0]))
  }

  /** The text without its comments. */
  function Live(s: string, mode: Mode): string {
    if s == "" then ""
    else Kept(mode, s[0]) + Live(s[1..], Next(mode, s[0]))
  }

  lemma {:induction false} ModeAppend(a: string, b: string, mode: Mode)
    ensures ModeAfter(a + b, mode) == ModeAfter(b, ModeAfter(a, mode))
  {
    if a == "" {
      assert a + b == b;
    } else {
      assert (a + b)[1..] == a[1..] + b;
      ModeAppend(a[1..], b, Next(mode, a[0]));
    }
  }

  /** What one character leaves. */
  function Kept(mode: Mode, c: char): string {
    if Next(mode, c) == Comment then "" else [c]
  }

  lemma {:induction false} LiveAppend(a: string, b: string, mode: Mode)
    ensures Live(a + b, mode) == Live(a, mode) + Live(b, ModeAfter(a, mode))
  {
    if a == "" {
      assert a + b == b;
    } else {
      var next := Next(mode, a[0]);
      assert (a + b)[1..] == a[1..] + b && (a + b)[0] == a[0];
      LiveAppend(a[1..], b, next);
      assert Live(a + b, mode) == Kept(mode, a[0]) + (Live(a[1..], next) + Live(b, ModeAfter(a, mode)));
    }
  }

  lemma {:induction false} CommentIsDead(s: string)
    requires '\n' !in s
    ensures Live(s, Comment) == "" && ModeAfter(s, Comment) == Comment
  {
    if s != "" { CommentIsDead(s[1..]); }
  }

  // ---------------------------------------------------------------- a comparison's line

  function Sign(op: Operator): string {
    match op
    case Equals => " == "
    case NotEquals => " != "
    case Greater => " > "
    case GreaterEq => " >= "
    case Less => " < "
    case LessEq => " <= "
    case _ => ""
  }

  predicate IsInfix(op: Operator) {
    op in {Equals, NotEquals, Greater, GreaterEq, Less, LessEq}
  }

  /** The text emitted for an infix comparison with a string. */
  function LineText(path: string, op: Operator, value: string, printing: Printing): string {
    FieldPathToRego(path) + Sign(op) + Quote(value, printing)
  }

  lemma {:induction false} HexPlain(n: nat, width: nat)
    ensures '\n' !in Hex(n, width)
  {
    if width > 0 { HexPlain(n / 16, width - 1); }
  }

  lemma {:induction false} EscapePlain(c: char, printing: Printing)
    ensures '\n' !in Escape(c, printing)
  {
    HexPlain(c as nat, 2);
    HexPlain(c as nat, 4);
    HexPlain(c as nat, 8);
  }

  /** A quoted string never spans lines. */
  lemma {:induction false} EscapedPlain(s: string, printing: Printing)
    ensures '\n' !in Escaped(s, printing)
  {
    if s != "" {
      EscapePlain(s[0], printing);
      EscapedPlain(s[1..], printing);
    }
  }

  /** After a comment sign outside quotes in a field path, operator and value are comment: whatever
      they are, Rego sees the same text. */
  lemma {:induction false} CommentSwallows(path: string, rest: string, op: Operator, value: string, printing: Printing)
    requires ModeAfter(FieldPathToRego(path), Code) == Code && '\n' !in rest && IsInfix(op)
    ensures Live(LineText(path + ("#" + rest), op, value, printing), Code) == Live(FieldPathToRego(path), Code)
  {
    var sign, quoted := Sign(op), Quote(value, printing);
    var tail := rest + sign + quoted;
    TailPlain(rest, op, value, printing);
    SamePrefix(path, "#" + rest);
    assert FieldPathToRego(path) + ("#" + rest) + sign + quoted == FieldPathToRego(path) + ("#" + tail);
    SwallowedTail(FieldPathToRego(path), tail);
  }

  lemma {:induction false} TailPlain(rest: string, op: Operator, value: string, printing: Printing)
    requires '\n' !in rest
    ensures '\n' !in rest + Sign(op) + Quote(value, printing)
  {
    EscapedPlain(value, printing);
  }

  lemma {:induction false} SwallowedTail(front: string, tail: string)
    requires ModeAfter(front, Code) == Code && '\n' !in tail
    ensures Live(front + ("#" + tail), Code) == Live(front, Code)
  {
    LiveAppend(front, "#" + tail, Code);
    assert ("#" + tail)[1..] == tail;
    CommentIsDead(tail);
  }

  lemma {:induction false} SamePrefix(path: string, more: string)
    requires more != "" && more[0] !in "input."
    ensures FieldPathToRego(path + more) == FieldPathToRego(path) + more
  {
    PrefixKept(path, more, "input.");
  }

  lemma {:induction false} PrefixKept(path: string, more: string, prefix: string)
    requires more != "" && more[0] !in prefix
    ensures HasPrefix(path + more, prefix) <==> HasPrefix(path, prefix)
  {
    var whole := path + more;
    if |prefix| <= |path| {
      assert whole[..|prefix|] == path[..|prefix|];
    } else if |prefix| <= |whole| {
      assert whole[..|prefix|][|path|] == more[0];
    }
  }

  // ---------------------------------------------------------------- a validated condition that is misread

  /** A field path followed by a comparison of its own and a comment sign. */
  function Pasted(path: string): string {
    path + " != \"\" #"
  }

  function PastedCondition(path: string, value: string): Json {
    Object([Member("field", String(Pasted(path))), Member("op", String("eq")), Member("value", String(value))])
  }

  lemma {:induction false} PastedIsValid(path: string, value: string)
    ensures ValidExpression(PastedCondition(path, value))
    ensures ReadExpr(PastedCondition(path, value)) == Ok(Tests([Test(Pasted(path), Equals, String(value))]))
  {
    var e := PastedCondition(path, value);
    var f, o, v := Member("field", String(Pasted(path))), Member("op", String("eq")), Member("value", String(value));
    assert e.members == [f, o, v] && [f, o, v][1..] == [o, v] && [o, v][1..] == [v] && [v][1..] == [];
    assert Field(e, "field") == Some(f.value) && Field(e, "op") == Some(o.value) && Field(e, "value") == Some(v.value);
    OnlyThree(e, "all");
    OnlyThree(e, "any");
    OnlyThree(e, "not");
    OnlyThree(e, "tool_in");
    OnlyThree(e, "agent_in");
    OnlyThree(e, "field_equals");
    OnlyThree(e, "field_in");
    OnlyThree(e, "field_matches");
    assert ReadLeaf(e) == ReadFieldOp(Pasted(path), e);
    assert OperatorNamed("eq") == Some(Plain(Equals));
  }

  lemma {:induction false} OnlyThree(e: Json, key: string)
    requires e.Object? && |e.members| == 3 && forall i :: 0 <= i < 3 ==> e.members[i].key != key
    ensures !HasField(e, key)
  {
  }

  lemma {:induction false} CodeOnly(s: string)
    requires '#' !in s && '"' !in s && '`' !in s
    ensures Live(s, Code) == s && ModeAfter(s, Code) == Code
  {
    if s != "" {
      CodeOnly(s[1..]);
      assert s == [s[0]] + s[1..];
    }
  }

  lemma {:induction false} EmptyQuotes()
    ensures Live("\"\" ", Code) == "\"\" " && ModeAfter("\"\" ", Code) == Code
  {
    assert "\"\" "[1..] == "\" " && "\" "[1..] == " " && " "[1..] == "";
  }

  /** A path that carries a comparison of its own and then a comment sign: that comparison is all of
      the line that Rego keeps. */
  lemma {:induction false} OwnComparison(path: string, own: string, op: Operator, value: string, printing: Printing)
    requires own != "" && own[0] !in "input." && IsInfix(op)
    requires Live(FieldPathToRego(path) + own, Code) == FieldPathToRego(path) + own
    requires ModeAfter(FieldPathToRego(path) + own, Code) == Code
    ensures Live(LineText(path + own + ("#" + ""), op, value, printing), Code) == FieldPathToRego(path) + own
  {
    SamePrefix(path, own);
    CommentSwallows(path + own, "", op, value, printing);
  }

  lemma {:induction false} LiveParts(line: string, sign: string, quotes: string)
    requires '#' !in line && '"' !in line && '`' !in line && '#' !in sign && '"' !in sign && '`' !in sign
    requires Live(quotes, Code) == quotes && ModeAfter(quotes, Code) == Code
    ensures Live(line + (sign + quotes), Code) == line + (sign + quotes) && ModeAfter(line + (sign + quotes), Code) == Code
  {
    CodeOnly(line + sign);
    LiveAppend(line + sign, quotes, Code);
    ModeAppend(line + sign, quotes, Code);
    assert line + sign + quotes == line + (sign + quotes);
  }

  lemma {:induction false} PathChars(path: string)
    requires '#' !in path && '"' !in path && '`' !in path
    ensures var line := FieldPathToRego(path); '#' !in line && '"' !in line && '`' !in line
  {
  }

  /** What Rego keeps of the pasted line is another comparison of the same field. */
  lemma {:induction false} PastedLine(path: string, value: string, printing: Printing)
    requires '#' !in path && '"' !in path && '`' !in path
    ensures Live(LineText(Pasted(path), Equals, value, printing), Code) == LineText(path, NotEquals, "", printing) + " "
  {
    var own := " != " + "\"\" ";
    EmptyQuotes();
    PathChars(path);
    LiveParts(FieldPathToRego(path), " != ", "\"\" ");
    OwnComparison(path, own, Equals, value, printing);
    PastedShape(path);
    ShownShape(path, printing);
  }

  lemma {:induction false} PastedShape(path: string)
    ensures Pasted(path) == path + (" != " + "\"\" ") + ("#" + "")
  {
    assert " != \"\" #" == " != " + "\"\" " + ("#" + "");
    assert path + (" != " + "\"\" " + ("#" + "")) == path + (" != " + "\"\" ") + ("#" + "");
  }

  lemma {:induction false} ShownShape(path: string, printing: Printing)
    ensures LineText(path, NotEquals, "", printing) + " " == FieldPathToRego(path) + (" != " + "\"\" ")
  {
    assert Quote("", printing) == "\"\"";
    assert "\"\"" + " " == "\"\" ";
  }

  /** An input where the field is present and not empty, and nothing is called like the pasted text. */
  lemma {:induction false} PastedInput(path: string, section: string, key: string, suffix: string) returns (env: Env)
    requires path == section + "." + key && IsIdentifier(section) && IsIdentifier(key) && section != "input"
    requires suffix != "" && '.' !in suffix
    ensures FieldValue(path, env) == Some(Bool(true)) && FieldValue(path + suffix, env) == None
  {
    var inner := Object([Member(key, Bool(true))]);
    var d := Object([Member(section, inner)]);
    env := Env(d, (p, t) => false, (a, b) => false);
    assert [Member(section, inner)][1..] == [] && [Member(key, Bool(true))][1..] == [];
    assert Field(d, section) == Some(inner) && Field(inner, key) == Some(Bool(true)) && Field(inner, key + suffix) == None;
    Steps(d, section, key);
    Steps(d, section, key + suffix);
    TwoSteps(path, section, key);
    assert path + suffix == section + "." + (key + suffix);
    TwoSteps(path + suffix, section, key + suffix);
  }

  lemma {:induction false} PastedNotPlain(path: string, section: string, key: string)
    requires path == section + "." + key && '.' !in section && '.' !in key && section != "input"
    ensures !PlainPath(Pasted(path))
  {
    var last := key + " != \"\" #";
    assert Pasted(path) == section + "." + last;
    TwoSteps(Pasted(path), section, last);
    assert last[|key|] == ' ';
    assert !IsIdentifier(last);
    assert ["input", section, last][2] == last;
  }

  lemma {:induction false} Steps(d: Json, section: string, key: string)
    requires d.Object? && HasField(d, section) && Field(d, section).value.Object?
    ensures Navigate(d, [section, key]) == Field(Field(d, section).value, key)
  {
    assert [section, key][1..] == [key] && [key][1..] == [];
    assert Navigate(Field(d, section).value, [key]) == Field(Field(d, section).value, key);
  }

  /** So for every plain two-step path Rego's comparison and the author's differ on some input: the
      first holds of a field that is present and not empty, the second of no field at all. */
  lemma {:induction false} PastedPathMisread(path: string, section: string, key: string, value: string) returns (env: Env)
    requires path == section + "." + key && IsIdentifier(section) && IsIdentifier(key) && section != "input"
    ensures RegoHolds(Render(Test(path, NotEquals, String(""))), env)
    ensures !TestHolds(Test(Pasted(path), Equals, String(value)), env)
    ensures !PlainPath(Pasted(path))
  {
    PastedNotPlain(path, section, key);
    env := PastedInput(path, section, key, " != \"\" #");
    PlainTwoSteps(path, section, key) by { InputIsIdentifier(); }
    NotEmptyHolds(path, env);
  }

  lemma {:induction false} NotEmptyHolds(path: string, env: Env)
    requires PlainPath(path) && FieldValue(path, env) == Some(Bool(true))
    ensures RegoHolds(Render(Test(path, NotEquals, String(""))), env)
  {
    RenderMeans(Test(path, NotEquals, String("")), env);
  }

  lemma {:induction false} InputIsIdentifier()
    ensures IsIdentifier("input")
  {
  }

  // ---------------------------------------------------------------- comments

  /** A line break in a comment's words ends the comment: what follows is part of the module. */
  lemma {:induction false} CommentBreaksOut(words: string, rest: string)
    requires '\n' !in words
    ensures Live("# " + words + "\n" + rest, Code) == "\n" + Live(rest, Code)
  {
    var line := " " + words;
    assert "# " + words + "\n" + rest == "#" + line + ("\n" + rest);
    assert ("#" + line + ("\n" + rest))[1..] == line + ("\n" + rest);
    CommentIsDead(line);
    LiveAppend(line, "\n" + rest, Comment);
    assert ("\n" + rest)[1..] == rest;
  }

  /** Words without a line break stay in the comment, whatever they are. */
  lemma {:induction false} CommentStays(words: string)
    requires '\n' !in words
    ensures Live("# " + words, Code) == ""
    ensures ModeAfter("# " + words, Code) == Comment
  {
    assert ("# " + words)[1..] == " " + words;
    CommentIsDead(" " + words);
  }
}
