/** Rule ids and the Rego names made from them (internal/policy/compiler/capability.go:61-75). */
module RuleIds {
  import opened Text

  /** The validator's `^[a-zA-Z][a-zA-Z0-9_-]*$`. */
  predicate IsValidId(id: string) {
    && id != "" && IsLetter(id[0])
    && forall i :: 0 <= i < |id| ==> IsLetter(id[i]) || IsDigit(id[i]) || id[i] == '_' || id[i] == '-'
  }

  function Unhyphen(c: char): char {
    if c == '-' then '_' else c
  }

  /** What one character adds to the name built so far: digits are dropped until it has started. */
  function Kept(c: char, built: string): string {
    var r := Unhyphen(c);
    if IsLetter(r) || r == '_' || (built != "" && IsDigit(r)) then [r] else ""
  }

  function SanitizeFrom(rest: string, built: string): string {
    if rest == "" then built else SanitizeFrom(rest[1..], built + Kept(rest[0], built))
  }

  function Sanitize(id: string): string {
    SanitizeFrom(id, "")
  }

  method SanitizeRuleId(id: string) returns (name: string)
    ensures name == Sanitize(id)
  {
    name := "";
    for i := 0 to |id|
      invariant SanitizeFrom(id[i..], name) == Sanitize(id)
    {
      assert id[i..][1..] == id[i + 1..];
      name := name + Kept(id[i], name);
    }
  }

  /** The letters, digits, underscores and hyphens of a string, hyphens as underscores. */
  function Usable(s: string): string {
    if s == "" then ""
    else (if IsLetter(s[0]) || IsDigit(s[0]) || s[0] in {'_', '-'} then [Unhyphen(s[0])] else "") + Usable(s[1..])
  }

  function WithoutLeadingDigits(s: string): string {
    if s != "" && IsDigit(s[0]) then WithoutLeadingDigits(s[1..]) else s
  }

  lemma {:induction false} SanitizeFromMeans(rest: string, built: string)
    ensures SanitizeFrom(rest, built) == if built == "" then WithoutLeadingDigits(Usable(rest)) else built + Usable(rest)
  {
    if rest != "" {
      SanitizeFromMeans(rest[1..], built + Kept(rest[0], built));
      var more := Usable(rest[1..]);
      if built == "" && Usable(rest) != more {
        assert Usable(rest)[0] == Unhyphen(rest[0]) && Usable(rest)[1..] == more;
      }
    }
  }

  /** The name is the usable characters after leading digits. */
  lemma {:induction false} SanitizeMeans(id: string)
    ensures Sanitize(id) == WithoutLeadingDigits(Usable(id))
  {
    SanitizeFromMeans(id, "");
  }

  lemma {:induction false} SanitizeFromLegal(rest: string, built: string)
    requires built == "" || IsIdentifier(built)
    ensures SanitizeFrom(rest, built) == "" || IsIdentifier(SanitizeFrom(rest, built))
  {
    if rest != "" {
      SanitizeFromLegal(rest[1..], built + Kept(rest[0], built));
    }
  }

  /** For every string the result is empty or a legal identifier. */
  lemma SanitizeLegal(id: string)
    ensures Sanitize(id) == "" || IsIdentifier(Sanitize(id))
  {
    SanitizeFromLegal(id, "");
  }

  /** When no character is dropped, sanitizing only replaces hyphens. */
  lemma {:induction false} SanitizeFromKeeps(rest: string, built: string)
    requires forall i :: 0 <= i < |rest| ==> IsLetter(rest[i]) || IsDigit(rest[i]) || rest[i] == '_' || rest[i] == '-'
    requires built == "" && rest != "" ==> !IsDigit(rest[0])
    ensures |SanitizeFrom(rest, built)| == |built| + |rest|
    ensures forall i :: 0 <= i < |built| ==> SanitizeFrom(rest, built)[i] == built[i]
    ensures forall i :: 0 <= i < |rest| ==> SanitizeFrom(rest, built)[|built| + i] == Unhyphen(rest[i])
  {
    if rest != "" {
      var more := built + [Unhyphen(rest[0])];
      SanitizeFromKeeps(rest[1..], more);
      var name := SanitizeFrom(rest[1..], more);
      forall i | 0 <= i < |rest| ensures name[|built| + i] == Unhyphen(rest[i]) {
        if i > 0 {
          assert rest[i] == rest[1..][i - 1];
          assert name[|more| + (i - 1)] == Unhyphen(rest[1..][i - 1]);
        } else {
          assert name[|built|] == more[|built|];
        }
      }
    }
  }

  lemma SanitizeIdempotent(id: string)
    ensures Sanitize(Sanitize(id)) == Sanitize(id)
  {
    var name := Sanitize(id);
    SanitizeLegal(id);
    SanitizeFromKeeps(name, "");
    assert forall i :: 0 <= i < |name| ==> Sanitize(name)[0 + i] == Unhyphen(name[i]) == name[i];
  }

  /** Validated ids keep their length and become identifiers. */
  lemma SanitizeValid(id: string)
    requires IsValidId(id)
    ensures |Sanitize(id)| == |id| && IsIdentifier(Sanitize(id))
    ensures forall i :: 0 <= i < |id| ==> Sanitize(id)[i] == Unhyphen(id[i])
  {
    SanitizeFromKeeps(id, "");
    assert forall i :: 0 <= i < |id| ==> Sanitize(id)[0 + i] == Unhyphen(id[i]);
    SanitizeLegal(id);
  }

  /** Two ids that differ at most by `-` against `_`. */
  predicate SameUpToHyphens(a: string, b: string) {
    |a| == |b| && forall i :: 0 <= i < |a| ==> a[i] == b[i] || {a[i], b[i]} == {'-', '_'}
  }

  lemma SanitizeCollision(a: string, b: string)
    requires IsValidId(a) && IsValidId(b)
    ensures Sanitize(a) == Sanitize(b) <==> SameUpToHyphens(a, b)
  {
    SanitizeValid(a);
    SanitizeValid(b);
    if Sanitize(a) == Sanitize(b) {
      forall i | 0 <= i < |a| ensures a[i] == b[i] || {a[i], b[i]} == {'-', '_'} {
        assert Sanitize(a)[i] == Sanitize(b)[i];
      }
    }
    if SameUpToHyphens(a, b) {
      forall i | 0 <= i < |a| ensures Sanitize(a)[i] == Sanitize(b)[i] {
        if a[i] != b[i] { assert a[i] in {'-', '_'} && b[i] in {'-', '_'}; }
      }
      assert Sanitize(a) == Sanitize(b);
    }
  }

  // ---------------------------------------------------------------- helper rule names

  datatype RuleType = Capability | Blocklist | RateLimit | Custom

  function Suffix(kind: RuleType): string {
    match kind
    case Capability => "_check"
    case Blocklist => "_blocked"
    case RateLimit => "_exceeded"
    case Custom => "_match"
  }

  /** The head of the helper rule emitted for a rule. */
  function HelperName(id: string, kind: RuleType): string {
    Sanitize(id) + Suffix(kind)
  }

  lemma SuffixDecides(a: string, b: string, s: RuleType, t: RuleType)
    requires a + Suffix(s) == b + Suffix(t)
    ensures a == b && s == t
  {
    var x := a + Suffix(s);
    var n := |x|;
    assert x[n - 1] == Suffix(s)[|Suffix(s)| - 1] == Suffix(t)[|Suffix(t)| - 1];
    assert x[n - 4] == Suffix(s)[|Suffix(s)| - 4] == Suffix(t)[|Suffix(t)| - 4];
    assert s == t;
    assert a == x[..n - |Suffix(s)|] == b;
  }

  /** Helper heads collide only for rules of one type whose ids differ by hyphens and underscores. */
  lemma HelperNamesCollide(a: string, b: string, s: RuleType, t: RuleType)
    requires IsValidId(a) && IsValidId(b)
    ensures HelperName(a, s) == HelperName(b, t) <==> s == t && SameUpToHyphens(a, b)
  {
    SanitizeCollision(a, b);
    if HelperName(a, s) == HelperName(b, t) {
      SuffixDecides(Sanitize(a), Sanitize(b), s, t);
    }
  }

  /** No helper head is one of the module's own rule names, except `capability_check`. */
  lemma HelperNamesFresh(id: string, kind: RuleType)
    requires IsValidId(id)
    ensures HelperName(id, kind) !in {"blocked", "allow", "rate_limit_ok", "violations", "capability_matches"}
    ensures HelperName(id, kind) == "capability_check" <==> kind == Capability && id == "capability"
  {
    SanitizeValid(id);
    var name, n := HelperName(id, kind), |HelperName(id, kind)|;
    var suffix := Suffix(kind);
    assert name[n - 1] == suffix[|suffix| - 1] && name[n - 2] == suffix[|suffix| - 2] && name[n - 4] == suffix[|suffix| - 4];
    assert n == |id| + |suffix|;
    assert n >= 7 && name[n - 1] in {'k', 'd', 'h'};
    assert name != "violations" && name != "capability_matches" && name != "allow";
    if name == "capability_check" {
      assert name == "capability" + Suffix(Capability);
      SuffixDecides(Sanitize(id), "capability", kind, Capability);
      assert forall i :: 0 <= i < |id| ==> Unhyphen(id[i]) == "capability"[i] != '_';
      assert id == "capability";
    }
    if kind == Capability && id == "capability" {
      assert Sanitize(id) == id;
    }
  }
}
