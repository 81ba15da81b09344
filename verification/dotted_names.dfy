/**
 Dotted identifiers: splitting on '.', joining with '.', and the two
 fixed-arity parsers for "module.class" and "module.class.method".
 Splitting follows Python's str.split('.'): it never fails, an empty
 string yields one empty segment, and empty segments are kept.
 */
module DottedNames {
  import opened Outcomes

  predicate DotFree(s: string) {
    '.' !in s
  }

  /** The number of '.' characters in s. */
  function Dots(s: string): nat {
    multiset(s)['.']
  }

  /** Python's '.'.join(parts) for a non-empty list. */
  function Join(parts: seq<string>): string
    requires |parts| >= 1
  {
    if |parts| == 1 then parts[0] else parts[0] + "." + Join(parts[1..])
  }

  /** Python's s.split('.'): the maximal dot-free segments of s, in order. */
  function Split(s: string): (parts: seq<string>)
    ensures |parts| >= 1
    ensures forall i :: 0 <= i < |parts| ==> DotFree(parts[i])
    ensures Join(parts) == s
    decreases |s|
  {
    if |s| == 0 then [""]
    else
      var rest := Split(s[1..]);
      assert s == [s[0]] + s[1..];
      if s[0] == '.' then
        var parts := [""] + rest;
        assert parts[1..] == rest;
        parts
      else
        var head := [s[0]] + rest[0];
        var parts := [head] + rest[1..];
        assert parts[1..] == rest[1..];
        assert forall i :: 1 <= i < |parts| ==> parts[i] == rest[i];
        parts
  }

  /** Python's '.'.join((prefix, name)) if prefix else name. */
  function JoinDot(prefix: string, name: string): string {
    if prefix == "" then name else prefix + "." + name
  }

  lemma JoinTwo(a: string, b: string)
    ensures Join([a, b]) == a + "." + b
  {
    assert [a, b][1..] == [b];
  }

  lemma JoinThree(a: string, b: string, c: string)
    ensures Join([a, b, c]) == a + "." + b + "." + c
  {
    assert [a, b, c][1..] == [b, c];
    JoinTwo(b, c);
  }

  /** A string with k dots splits into exactly k + 1 segments. */
  lemma {:induction false} SplitCountsDots(s: string)
    ensures |Split(s)| == Dots(s) + 1
    decreases |s|
  {
    if |s| > 0 {
      assert s == [s[0]] + s[1..];
      assert multiset(s) == multiset([s[0]]) + multiset(s[1..]);
      SplitCountsDots(s[1..]);
    }
  }

  lemma {:induction false} SplitDotFree(a: string)
    requires DotFree(a)
    ensures Split(a) == [a]
    decreases |a|
  {
    if |a| > 0 {
      assert DotFree(a[1..]);
      SplitDotFree(a[1..]);
      assert a == [a[0]] + a[1..];
    }
  }

  /** A dot-free first segment is split off unchanged. */
  lemma {:induction false} SplitSegment(a: string, b: string)
    requires DotFree(a)
    ensures Split(a + "." + b) == [a] + Split(b)
    decreases |a|
  {
    var s := a + "." + b;
    if |a| == 0 {
      assert s[1..] == b;
    } else {
      assert s[1..] == a[1..] + "." + b;
      assert DotFree(a[1..]);
      SplitSegment(a[1..], b);
      assert a == [a[0]] + a[1..];
    }
  }

  /** Joining dot-free segments and splitting again gives back the segments. */
  lemma {:induction false} SplitJoin(parts: seq<string>)
    requires |parts| >= 1
    requires forall i :: 0 <= i < |parts| ==> DotFree(parts[i])
    ensures Split(Join(parts)) == parts
    decreases |parts|
  {
    if |parts| == 1 {
      SplitDotFree(parts[0]);
    } else {
      SplitJoin(parts[1..]);
      SplitSegment(parts[0], Join(parts[1..]));
      assert [parts[0]] + parts[1..] == parts;
    }
  }

  /** Joining two lists one after the other is joining each and putting a
      dot between. */
  lemma {:induction false} JoinConcat(p: seq<string>, q: seq<string>)
    requires |p| >= 1 && |q| >= 1
    ensures Join(p + q) == Join(p) + "." + Join(q)
    decreases |p|
  {
    assert (p + q)[0] == p[0];
    if |p| == 1 {
      assert (p + q)[1..] == q;
    } else {
      assert (p + q)[1..] == p[1..] + q;
      JoinConcat(p[1..], q);
    }
  }

  /** Splitting the join of two lists of dot-free segments, put one after
      the other with a dot between, gives back both lists in order. */
  lemma SplitJoinConcat(p: seq<string>, q: seq<string>)
    requires |p| >= 1 && |q| >= 1
    requires forall i :: 0 <= i < |p| ==> DotFree(p[i])
    requires forall i :: 0 <= i < |q| ==> DotFree(q[i])
    ensures Split(Join(p) + "." + Join(q)) == p + q
  {
    JoinConcat(p, q);
    forall i | 0 <= i < |p + q|
      ensures DotFree((p + q)[i])
    {
      if i >= |p| {
        assert (p + q)[i] == q[i - |p|];
      }
    }
    SplitJoin(p + q);
  }

  /** Splitting "a.b" gives the segments of a followed by those of b. */
  lemma SplitDotJoin(a: string, b: string)
    ensures Split(a + "." + b) == Split(a) + Split(b)
  {
    SplitJoinConcat(Split(a), Split(b));
  }

  /** The segments of JoinDot(prefix, name) for a dot-free name: those of the
      prefix, when there is one, then the name. */
  lemma JoinDotSegments(prefix: string, name: string)
    requires DotFree(name)
    ensures Split(JoinDot(prefix, name)) == (if prefix == "" then [name] else Split(prefix) + [name])
  {
    SplitDotFree(name);
    if prefix != "" {
      SplitDotJoin(prefix, name);
    }
  }

  /** Prefixing with JoinDot loses nothing when the name is dot-free: the
      result determines both the prefix and the name. */
  lemma JoinDotInjective(p1: string, n1: string, p2: string, n2: string)
    requires DotFree(n1) && DotFree(n2)
    requires JoinDot(p1, n1) == JoinDot(p2, n2)
    ensures p1 == p2 && n1 == n2
  {
    JoinDotSegments(p1, n1);
    JoinDotSegments(p2, n2);
    var parts := Split(JoinDot(p1, n1));
    if p1 != "" {
      SplitCountsDots(p1);
    }
    if p2 != "" {
      SplitCountsDots(p2);
    }
    if p1 != "" && p2 != "" {
      assert Split(p1) == parts[..|parts| - 1] == Split(p2);
      assert p1 == Join(Split(p1)) == Join(Split(p2)) == p2;
    }
  }

  /** The segments of a "module.class" name. */
  function ParseClassName(name: string): (r: Result<(string, string)>)
    ensures r.Success? <==> Dots(name) == 1
    ensures r.Success? ==>
              && DotFree(r.value.0) && DotFree(r.value.1)
              && name == Join([r.value.0, r.value.1])
    ensures r.Failure? ==> r.error == BadClassName(name)
  {
    var parts := Split(name);
    SplitCountsDots(name);
    if |parts| != 2 then Failure(BadClassName(name))
    else
      assert parts == [parts[0], parts[1]];
      Success((parts[0], parts[1]))
  }

  /** The segments of a "module.class.method" name. */
  function ParseMethodName(name: string): (r: Result<(string, string, string)>)
    ensures r.Success? <==> Dots(name) == 2
    ensures r.Success? ==>
              && DotFree(r.value.0) && DotFree(r.value.1) && DotFree(r.value.2)
              && name == Join([r.value.0, r.value.1, r.value.2])
    ensures r.Failure? ==> r.error == BadMethodName(name)
  {
    var parts := Split(name);
    SplitCountsDots(name);
    if |parts| != 3 then Failure(BadMethodName(name))
    else
      assert parts == [parts[0], parts[1], parts[2]];
      Success((parts[0], parts[1], parts[2]))
  }

  /** Every pair of dot-free segments, empty ones included, is accepted as a
      class name and parsed back to itself. */
  lemma ClassNameRoundTrip(m: string, c: string)
    requires DotFree(m) && DotFree(c)
    ensures ParseClassName(Join([m, c])) == Success((m, c))
  {
    SplitJoin([m, c]);
  }

  /** Every triple of dot-free segments, empty ones included, is accepted as
      a method name and parsed back to itself. */
  lemma MethodNameRoundTrip(m: string, c: string, x: string)
    requires DotFree(m) && DotFree(c) && DotFree(x)
    ensures ParseMethodName(Join([m, c, x])) == Success((m, c, x))
  {
    SplitJoin([m, c, x]);
  }

  /** Two "module.class" spellings with dot-free segments are equal only when
      their segments are. */
  lemma ClassNameInjective(m1: string, c1: string, m2: string, c2: string)
    requires DotFree(m1) && DotFree(c1) && DotFree(m2) && DotFree(c2)
    requires Join([m1, c1]) == Join([m2, c2])
    ensures m1 == m2 && c1 == c2
  {
    ClassNameRoundTrip(m1, c1);
    ClassNameRoundTrip(m2, c2);
  }

  /** Two "module.class.method" spellings with dot-free segments are equal
      only when their segments are. */
  lemma MethodNameInjective(m1: string, c1: string, x1: string, m2: string, c2: string, x2: string)
    requires DotFree(m1) && DotFree(c1) && DotFree(x1)
    requires DotFree(m2) && DotFree(c2) && DotFree(x2)
    requires Join([m1, c1, x1]) == Join([m2, c2, x2])
    ensures m1 == m2 && c1 == c2 && x1 == x2
  {
    MethodNameRoundTrip(m1, c1, x1);
    MethodNameRoundTrip(m2, c2, x2);
  }
}
