/**
 Flattening a name tree into fully-qualified method names by a depth-first
 walk: each level prefixes its key to the dotted name built so far, and the
 prefix is left off while it is empty (no package, or an empty module name).
 The walk reads the tree and returns a new set; it never changes the tree.
 */
module Flattening {
  import opened DottedNames
  import opened NameTrees

  /** The name the walk produces for one leaf. */
  function FullName(pkg: string, l: Leaf): string {
    JoinDot(JoinDot(JoinDot(pkg, l.mod), l.cls), l.mth)
  }

  function FullNames(pkg: string, leaves: set<Leaf>): set<string> {
    set l | l in leaves :: FullName(pkg, l)
  }

  /** The walk's innermost level: one name per method of a class. */
  function FlattenMethods(prefix: string, methods: set<string>): set<string> {
    set x | x in methods :: JoinDot(prefix, x)
  }

  /** The walk below one module. */
  function FlattenClasses(prefix: string, classes: map<string, set<string>>): set<string> {
    set c, n | c in classes && n in FlattenMethods(JoinDot(prefix, c), classes[c]) :: n
  }

  /** The whole walk, starting from the package as prefix: exactly the full
      name of every leaf. */
  function FlattenTree(pkg: string, t: Tree): (r: set<string>)
    ensures r == FullNames(pkg, Leaves(t))
  {
    var walked := set m, n | m in t && n in FlattenClasses(JoinDot(pkg, m), t[m]) :: n;
    WalkIsLeafImage(pkg, t, walked);
    walked
  }

  lemma WalkIsLeafImage(pkg: string, t: Tree, walked: set<string>)
    requires walked == set m, n | m in t && n in FlattenClasses(JoinDot(pkg, m), t[m]) :: n
    ensures walked == FullNames(pkg, Leaves(t))
  {
    forall n | n in walked
      ensures n in FullNames(pkg, Leaves(t))
    {
      var m :| m in t && n in FlattenClasses(JoinDot(pkg, m), t[m]);
      var c :| c in t[m] && n in FlattenMethods(JoinDot(JoinDot(pkg, m), c), t[m][c]);
      var x :| x in t[m][c] && n == JoinDot(JoinDot(JoinDot(pkg, m), c), x);
      assert Leaf(m, c, x) in Leaves(t);
      assert n == FullName(pkg, Leaf(m, c, x));
    }
    forall n | n in FullNames(pkg, Leaves(t))
      ensures n in walked
    {
      var l :| l in Leaves(t) && n == FullName(pkg, l);
      var m, c, x := l.mod, l.cls, l.mth;
      assert n in FlattenMethods(JoinDot(JoinDot(pkg, m), c), t[m][c]);
      assert n in FlattenClasses(JoinDot(pkg, m), t[m]);
    }
  }

  /** With a package the name is "pkg.mod.cls.mth", without one "mod.cls.mth";
      the only exception is an empty module name with no package. */
  lemma FullNameShape(pkg: string, l: Leaf)
    requires pkg != "" || l.mod != ""
    ensures FullName(pkg, l) == JoinDot(pkg, Join([l.mod, l.cls, l.mth]))
    ensures pkg != "" ==> FullName(pkg, l) == Join([pkg, l.mod, l.cls, l.mth])
  {
    JoinThree(l.mod, l.cls, l.mth);
    JoinThree(pkg + "." + l.mod, l.cls, l.mth);
    assert [pkg, l.mod, l.cls, l.mth][1..] == [l.mod, l.cls, l.mth];
  }

  /** Leaves whose class and method names are dot-free get distinct full
      names, whatever the package and the module names (dotted or empty). */
  lemma FullNameInjective(pkg: string, l1: Leaf, l2: Leaf)
    requires PlainSegments(l1) && PlainSegments(l2)
    requires FullName(pkg, l1) == FullName(pkg, l2)
    ensures l1 == l2
  {
    JoinDotInjective(JoinDot(JoinDot(pkg, l1.mod), l1.cls), l1.mth, JoinDot(JoinDot(pkg, l2.mod), l2.cls), l2.mth);
    JoinDotInjective(JoinDot(pkg, l1.mod), l1.cls, JoinDot(pkg, l2.mod), l2.cls);
    if pkg != "" {
      assert (pkg + "." + l1.mod)[|pkg| + 1..] == l1.mod;
      assert (pkg + "." + l2.mod)[|pkg| + 1..] == l2.mod;
    }
  }

  /** Class and method names are dot-free, as Python identifiers are. Module
      names may be dotted ("sub.test_x") or empty. */
  predicate PlainSegments(l: Leaf) {
    DotFree(l.cls) && DotFree(l.mth)
  }

  lemma {:induction false} FullNamesSize(pkg: string, leaves: set<Leaf>)
    requires forall l :: l in leaves ==> PlainSegments(l)
    ensures |FullNames(pkg, leaves)| == |leaves|
    decreases leaves
  {
    if leaves != {} {
      var l :| l in leaves;
      var rest := leaves - {l};
      FullNamesSize(pkg, rest);
      assert FullNames(pkg, leaves) == FullNames(pkg, rest) + {FullName(pkg, l)};
      if FullName(pkg, l) in FullNames(pkg, rest) {
        var l2 :| l2 in rest && FullName(pkg, l2) == FullName(pkg, l);
        FullNameInjective(pkg, l, l2);
        assert false;
      }
    }
  }

  /** When class and method names are identifiers the walk produces exactly
      one distinct name per leaf. */
  lemma FlattenOnePerLeaf(pkg: string, t: Tree)
    requires forall l :: l in Leaves(t) ==> PlainSegments(l)
    ensures |FlattenTree(pkg, t)| == |Leaves(t)|
  {
    FullNamesSize(pkg, Leaves(t));
  }
}
