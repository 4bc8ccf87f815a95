/** String helpers shared by the models: the parts of Go's `strings` package they need. */
module Text {

  datatype Option<+T> = None | Some(value: T)

  predicate IsLetter(c: char) { 'a' <= c <= 'z' || 'A' <= c <= 'Z' }

  predicate IsDigit(c: char) { '0' <= c <= '9' }

  /** A Rego identifier: a letter or underscore, then letters, digits and underscores. */
  predicate IsIdentifier(s: string) {
    && s != "" && (IsLetter(s[0]) || s[0] == '_')
    && forall i :: 0 <= i < |s| ==> IsLetter(s[i]) || IsDigit(s[i]) || s[i] == '_'
  }

  predicate HasPrefix(s: string, prefix: string) {
    |prefix| <= |s| && s[..|prefix|] == prefix
  }

  predicate HasSuffix(s: string, suffix: string) {
    |suffix| <= |s| && s[|s| - |suffix|..] == suffix
  }

  predicate HasSubstring(s: string, part: string) {
    exists i :: 0 <= i <= |s| && HasPrefix(s[i..], part)
  }

  lemma {:induction false} PrefixIff(s: string, part: string)
    ensures HasPrefix(s, part) <==> exists b: string :: s == part + b
  {
    if HasPrefix(s, part) { assert s == part + s[|part|..]; }
    if b: string :| s == part + b { assert s[..|part|] == part; }
  }

  lemma {:induction false} SuffixIff(s: string, part: string)
    ensures HasSuffix(s, part) <==> exists a: string :: s == a + part
  {
    if HasSuffix(s, part) { assert s == s[..|s| - |part|] + part; }
    if a: string :| s == a + part { assert s[|s| - |part|..] == part; }
  }

  lemma {:induction false} SubstringIff(s: string, part: string)
    ensures HasSubstring(s, part) <==> exists a: string, b: string :: s == a + part + b
  {
    if i :| 0 <= i <= |s| && HasPrefix(s[i..], part) {
      assert s == s[..i] + part + s[i..][|part|..];
    }
    if a: string, b: string :| s == a + part + b {
      assert s[|a|..][..|part|] == part;
      assert 0 <= |a| <= |s| && HasPrefix(s[|a|..], part);
    }
  }

  /** `strings.Split(s, sep)` for a one-character separator. */
  function Split(s: string, sep: char): (parts: seq<string>)
    ensures |parts| >= 1
  {
    if s == "" then [""]
    else
      var rest := Split(s[1..], sep);
      if s[0] == sep then [""] + rest
      else [[s[0]] + rest[0]] + rest[1..]
  }

  lemma {:induction false} SplitWhole(s: string, sep: char)
    requires sep !in s
    ensures Split(s, sep) == [s]
  {
    if s != "" { SplitWhole(s[1..], sep); assert [s[0]] + s[1..] == s; }
  }

  /** Splitting at a separator that ends a separator-free first field. */
  lemma {:induction false} SplitFirst(field: string, sep: char, rest: string)
    requires sep !in field
    ensures Split(field + [sep] + rest, sep) == [field] + Split(rest, sep)
  {
    var s := field + [sep] + rest;
    if field == "" {
      assert s[1..] == rest;
    } else {
      assert s[1..] == field[1..] + [sep] + rest;
      SplitFirst(field[1..], sep, rest);
      assert [field[0]] + field[1..] == field;
    }
  }
}
