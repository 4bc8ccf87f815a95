/** The decision cache's key (internal/policy/cache.go:117-128). */
module CacheKey {
  import opened Text

  /** SHA-256 in hexadecimal, left abstract: any function to strings of at least eight characters. */
  ghost predicate IsHash(hash: string -> string) {
    forall s :: |hash(s)| >= 8
  }

  // ---------------------------------------------------------------- sort.Strings

  /** Go's string order. */
  predicate Leq(a: string, b: string) {
    a == "" || (b != "" && (a[0] < b[0] || (a[0] == b[0] && Leq(a[1..], b[1..]))))
  }

  lemma {:induction false} LeqTotal(a: string, b: string)
    ensures Leq(a, b) || Leq(b, a)
  {
    if a != "" && b != "" && a[0] == b[0] { LeqTotal(a[1..], b[1..]); }
  }

  lemma {:induction false} LeqTransitive(a: string, b: string, c: string)
    requires Leq(a, b) && Leq(b, c)
    ensures Leq(a, c)
  {
    if a != "" && a[0] == b[0] == c[0] { LeqTransitive(a[1..], b[1..], c[1..]); }
  }

  lemma {:induction false} LeqAntisymmetric(a: string, b: string)
    requires Leq(a, b) && Leq(b, a)
    ensures a == b
  {
    if a != "" && b != "" {
      LeqAntisymmetric(a[1..], b[1..]);
      assert a == [a[0]] + a[1..] && b == [b[0]] + b[1..];
    }
  }

  predicate IsSorted(s: seq<string>) {
    forall i, j :: 0 <= i < j < |s| ==> Leq(s[i], s[j])
  }

  function Insert(x: string, s: seq<string>): seq<string> {
    if s == [] || Leq(x, s[0]) then [x] + s else [s[0]] + Insert(x, s[1..])
  }

  function Sort(s: seq<string>): seq<string> {
    if s == [] then [] else Insert(s[0], Sort(s[1..]))
  }

  lemma {:induction false} InsertSorts(x: string, s: seq<string>)
    requires IsSorted(s)
    ensures IsSorted(Insert(x, s)) && multiset(Insert(x, s)) == multiset(s) + multiset{x}
  {
    if s == [] {
    } else if Leq(x, s[0]) {
      forall j | 0 <= j < |s| ensures Leq(x, s[j]) { if j > 0 { LeqTransitive(x, s[0], s[j]); } }
    } else {
      LeqTotal(x, s[0]);
      InsertSorts(x, s[1..]);
      assert s == [s[0]] + s[1..];
      var t := Insert(x, s[1..]);
      forall j | 0 <= j < |t| ensures Leq(s[0], t[j]) {
        assert t[j] in multiset(t);
        assert t[j] == x || t[j] in s[1..];
      }
    }
  }

  lemma {:induction false} SortSorts(s: seq<string>)
    ensures IsSorted(Sort(s)) && multiset(Sort(s)) == multiset(s)
  {
    if s != [] {
      SortSorts(s[1..]);
      InsertSorts(s[0], Sort(s[1..]));
      assert s == [s[0]] + s[1..];
    }
  }

  /** A sorted sequence is determined by its elements. */
  lemma {:induction false} SortedUnique(a: seq<string>, b: seq<string>)
    requires IsSorted(a) && IsSorted(b) && multiset(a) == multiset(b)
    ensures a == b
  {
    assert |multiset(a)| == |a| && |multiset(b)| == |b|;
    if a != [] {
      SortedHeads(a, b);
      TailMultiset(a);
      TailMultiset(b);
      SortedUnique(a[1..], b[1..]);
      assert a == [a[0]] + a[1..] && b == [b[0]] + b[1..];
    }
  }

  lemma TailMultiset(s: seq<string>)
    requires s != []
    ensures multiset(s[1..]) == multiset(s) - multiset{s[0]}
  {
    assert s == [s[0]] + s[1..];
  }

  lemma SortedHeads(a: seq<string>, b: seq<string>)
    requires a != [] && b != [] && IsSorted(a) && IsSorted(b) && multiset(a) == multiset(b)
    ensures a[0] == b[0]
  {
    assert a[0] in multiset(a) && b[0] in multiset(b);
    LeastFirst(a, b[0]);
    LeastFirst(b, a[0]);
    LeqAntisymmetric(a[0], b[0]);
  }

  lemma LeastFirst(s: seq<string>, x: string)
    requires IsSorted(s) && x in multiset(s)
    ensures Leq(s[0], x)
  {
    var i :| 0 <= i < |s| && s[i] == x;
    LeqTotal(x, x);
  }

  // ---------------------------------------------------------------- strings.Join

  function Join(parts: seq<string>, sep: char): string {
    if parts == [] then ""
    else if |parts| == 1 then parts[0]
    else parts[0] + [sep] + Join(parts[1..], sep)
  }

  lemma {:induction false} SplitJoin(parts: seq<string>, sep: char)
    requires parts != [] && forall i :: 0 <= i < |parts| ==> sep !in parts[i]
    ensures Split(Join(parts, sep), sep) == parts
  {
    if |parts| == 1 {
      SplitWhole(parts[0], sep);
    } else {
      SplitFirst(parts[0], sep, Join(parts[1..], sep));
      SplitJoin(parts[1..], sep);
    }
  }

  // ---------------------------------------------------------------- the key

  function ComputeKey(agent: string, tool: string, capabilities: seq<string>, hash: string -> string): string
    requires IsHash(hash)
  {
    agent + ":" + tool + ":" + hash(Join(Sort(capabilities), ','))[..8]
  }

  /** The key does not depend on the order of the capabilities. */
  lemma KeyIsCanonical(agent: string, tool: string, a: seq<string>, b: seq<string>, hash: string -> string)
    requires IsHash(hash) && multiset(a) == multiset(b)
    ensures ComputeKey(agent, tool, a, hash) == ComputeKey(agent, tool, b, hash)
  {
    SortSorts(a);
    SortSorts(b);
    SortedUnique(Sort(a), Sort(b));
  }

  /** Non-empty and without a comma. */
  predicate Plain(capabilities: seq<string>) {
    forall i :: 0 <= i < |capabilities| ==> capabilities[i] != "" && ',' !in capabilities[i]
  }

  lemma JoinInjective(a: seq<string>, b: seq<string>)
    requires Plain(a) && Plain(b) && Join(Sort(a), ',') == Join(Sort(b), ',')
    ensures multiset(a) == multiset(b)
  {
    SortSorts(a);
    SortSorts(b);
    SortedPlain(a);
    SortedPlain(b);
    var s, t := Sort(a), Sort(b);
    if s != [] { SplitJoin(s, ','); }
    if t != [] { SplitJoin(t, ','); }
    SplitWhole("", ',');
    assert s == t;
  }

  lemma SortedPlain(a: seq<string>)
    requires Plain(a)
    ensures Plain(Sort(a))
  {
    SortSorts(a);
    forall i | 0 <= i < |Sort(a)| ensures Sort(a)[i] in a {
      assert Sort(a)[i] in multiset(a);
    }
  }

  /** Equal keys force equal agents, tools and capabilities. */
  lemma KeyIsInjective(agent1: string, tool1: string, caps1: seq<string>,
                       agent2: string, tool2: string, caps2: seq<string>, hash: string -> string)
    requires IsHash(hash)
    requires ':' !in agent1 && ':' !in agent2 && Plain(caps1) && Plain(caps2)
    requires var a, b := Join(Sort(caps1), ','), Join(Sort(caps2), ','); hash(a)[..8] == hash(b)[..8] ==> a == b
    requires ComputeKey(agent1, tool1, caps1, hash) == ComputeKey(agent2, tool2, caps2, hash)
    ensures agent1 == agent2 && tool1 == tool2 && multiset(caps1) == multiset(caps2)
  {
    var k := ComputeKey(agent1, tool1, caps1, hash);
    var h1, h2 := hash(Join(Sort(caps1), ','))[..8], hash(Join(Sort(caps2), ','))[..8];
    assert k[|k| - 8..] == h1 && k[|k| - 8..] == h2;
    var tail1, tail2 := tool1 + ":" + h1, tool2 + ":" + h2;
    assert k == agent1 + [':'] + tail1 && k == agent2 + [':'] + tail2;
    SplitFirst(agent1, ':', tail1);
    SplitFirst(agent2, ':', tail2);
    assert Split(k, ':')[0] == agent1 == agent2;
    assert tail1 == k[|agent1| + 1..] == tail2;
    assert tool1 == tail1[..|tail1| - 9] == tool2;
    JoinInjective(caps1, caps2);
  }

  /** Without the conditions keys collide: a colon can move from the agent to the tool, two
      capabilities can pass for one with a comma, and an empty capability for none. */
  lemma KeyCollisions(agent: string, part: string, tool: string, caps: seq<string>, hash: string -> string)
    requires IsHash(hash)
    ensures ComputeKey(agent + ":" + part, tool, caps, hash) == ComputeKey(agent, part + ":" + tool, caps, hash)
    ensures ComputeKey(agent, tool, ["a", "b"], hash) == ComputeKey(agent, tool, ["a,b"], hash)
    ensures ComputeKey(agent, tool, [""], hash) == ComputeKey(agent, tool, [], hash)
  {
    var h := hash(Join(Sort(caps), ','))[..8];
    assert agent + ":" + part + ":" + tool + ":" + h == agent + ":" + (part + ":" + tool) + ":" + h;
    assert Sort(["a", "b"]) == ["a", "b"] by {
      assert ["a", "b"][1..] == ["b"] && ["b"][1..] == [];
      assert Leq("a", "b");
    }
    assert Sort(["a,b"]) == ["a,b"] by { assert ["a,b"][1..] == []; }
    assert Sort([""]) == [""] by { assert [""][1..] == []; }
    assert Join(["a", "b"], ',') == "a,b" by { assert ["a", "b"][1..] == ["b"]; }
  }
}
