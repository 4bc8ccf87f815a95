/**
 `capability_matches`, written out both in the shipped policy (policies/capability.rego:28-43) and in
 the helpers of every generated module (internal/policy/compiler/compiler.go:143-157).
 */
module Capabilities {
  import opened Text

  predicate IsWildcard(granted: string) {
    HasSuffix(granted, ":*")
  }

  /** `trim_suffix(granted, "*")` */
  function WildcardPrefix(granted: string): string
    requires IsWildcard(granted)
  {
    granted[..|granted| - 1]
  }

  predicate CapabilityMatches(granted: string, required: string) {
    || granted == required
    || granted == "*"
    || (IsWildcard(granted) && HasPrefix(required, WildcardPrefix(granted)))
  }

  /** The matching rule by concatenation: a granted string covers itself, `*` covers everything, and
      `p:*` covers whatever starts with `p:`. */
  ghost predicate Covers(granted: string, required: string) {
    || granted == required
    || granted == "*"
    || exists p: string, rest: string :: granted == p + ":*" && required == p + ":" + rest
  }

  lemma {:induction false} WildcardShape(p: string, rest: string)
    ensures IsWildcard(p + ":*") && WildcardPrefix(p + ":*") == p + ":"
    ensures HasPrefix(p + ":" + rest, p + ":")
  {
    var g := p + ":*";
    assert g[|g| - 2..] == ":*";
    assert g[..|g| - 1] == p + ":";
    assert (p + ":" + rest)[..|p + ":"|] == p + ":";
  }

  /** `capability_matches` is the rule by concatenation. */
  lemma {:induction false} MatchesIff(granted: string, required: string)
    ensures CapabilityMatches(granted, required) <==> Covers(granted, required)
  {
    if p: string, rest: string :| granted == p + ":*" && required == p + ":" + rest {
      WildcardShape(p, rest);
    }
    if CapabilityMatches(granted, required) && granted != required && granted != "*" {
      var n := |granted|;
      var p, rest := granted[..n - 2], required[n - 1..];
      WildcardMatch(granted, required);
      assert granted == p + ":*";
      assert required == p + ":" + rest;
    }
  }

  /** A match other than equality or `*` agrees with the granted string up to its last colon. */
  lemma WildcardMatch(granted: string, required: string)
    requires CapabilityMatches(granted, required) && granted != required && granted != "*"
    ensures |granted| >= 2 && granted[|granted| - 2] == ':' && granted[|granted| - 1] == '*'
    ensures |granted| - 1 <= |required|
    ensures forall i :: 0 <= i < |granted| - 1 ==> granted[i] == required[i]
  {
    assert granted[|granted| - 2..] == ":*";
    assert granted[|granted| - 2] == ":*"[0] && granted[|granted| - 1] == ":*"[1];
    var p := WildcardPrefix(granted);
    assert required[..|p|] == p;
    assert forall i :: 0 <= i < |p| ==> p[i] == granted[i] && required[..|p|][i] == required[i];
  }

  /** A stronger capability grants whatever a weaker one does. */
  lemma MatchesTransitive(a: string, b: string, c: string)
    requires CapabilityMatches(a, b) && CapabilityMatches(b, c)
    ensures CapabilityMatches(a, c)
  {
    if a != b && b != c && a != "*" {
      WildcardMatch(a, b);
      if b != "*" { WildcardMatch(b, c); }
      assert c[..|a| - 1] == a[..|a| - 1];
    }
  }

  lemma MatchesAntisymmetric(a: string, b: string)
    requires CapabilityMatches(a, b) && CapabilityMatches(b, a)
    ensures a == b
  {
    if a != b {
      if a != "*" { WildcardMatch(a, b); }
      if b != "*" { WildcardMatch(b, a); }
    }
  }

  /** Only `*` itself matches `*`, and `*` matches everything. */
  lemma StarIsTop(a: string)
    ensures CapabilityMatches("*", a)
    ensures CapabilityMatches(a, "*") ==> a == "*"
  {
    if CapabilityMatches(a, "*") { MatchesAntisymmetric(a, "*"); }
  }
}
