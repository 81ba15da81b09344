/**
 Applying a group's exclusion lists to a name tree. Each list is first made
 a set, so a repeated entry is deleted once; the set is then walked in an
 unspecified order, each entry parsed and deleted, and the first entry that
 is malformed or names something absent aborts with its error. Whether the
 walk succeeds, and the tree it leaves, do not depend on the order; which
 error is reported may.
 */
module Exclusions {
  import opened Outcomes
  import opened DottedNames
  import opened NameTrees

  function Elems(names: seq<string>): set<string> {
    set n | n in names
  }

  /** Extending a prefix of a list by one entry adds that entry to its elements. */
  lemma ElemsStep(names: seq<string>, i: int)
    requires 0 <= i < |names|
    ensures Elems(names[..i + 1]) == Elems(names[..i]) + {names[i]}
  {
    assert names[..i + 1] == names[..i] + [names[i]];
  }

  /** Class c of module m is spelled by an entry of names. */
  predicate ClassListed(names: set<string>, m: string, c: string) {
    DotFree(m) && DotFree(c) && Join([m, c]) in names
  }

  /** Leaf l lies in a class listed in names. */
  predicate ClassExcluded(names: set<string>, l: Leaf) {
    ClassListed(names, l.mod, l.cls)
  }

  /** Leaf l is a method listed in names. */
  predicate MethodExcluded(names: set<string>, l: Leaf) {
    DotFree(l.mod) && DotFree(l.cls) && DotFree(l.mth) && Join([l.mod, l.cls, l.mth]) in names
  }

  function WithoutClasses(leaves: set<Leaf>, names: set<string>): set<Leaf> {
    set l | l in leaves && !ClassExcluded(names, l)
  }

  function WithoutMethods(leaves: set<Leaf>, names: set<string>): set<Leaf> {
    set l | l in leaves && !MethodExcluded(names, l)
  }

  /** The "module.class" spellings of the classes of t. */
  function ClassSpellings(t: Tree): set<string> {
    set m, c | m in t && c in t[m] && DotFree(m) && DotFree(c) :: Join([m, c])
  }

  /** The "module.class.method" spellings of leaves. */
  function MethodSpellings(leaves: set<Leaf>): set<string> {
    set l | l in leaves && DotFree(l.mod) && DotFree(l.cls) && DotFree(l.mth) :: Join([l.mod, l.cls, l.mth])
  }

  /** Every entry is a "module.class" name of a class present in t. */
  predicate ClassExclusionsValid(t: Tree, names: set<string>) {
    names <= ClassSpellings(t)
  }

  /** Every entry is a "module.class.method" name of a leaf in leaves. */
  predicate MethodExclusionsValid(leaves: set<Leaf>, names: set<string>) {
    names <= MethodSpellings(leaves)
  }

  /** A class entry is valid exactly when it parses as "module.class" and
      names a class of t. */
  lemma ClassEntryValid(t: Tree, n: string)
    ensures n in ClassSpellings(t) <==>
              ParseClassName(n).Success? && HasClass(t, ParseClassName(n).value.0, ParseClassName(n).value.1)
  {
    if n in ClassSpellings(t) {
      var m, c :| m in t && c in t[m] && DotFree(m) && DotFree(c) && n == Join([m, c]);
      ClassNameRoundTrip(m, c);
    }
  }

  /** A method entry is valid exactly when it parses as "module.class.method"
      and names one of the leaves. */
  lemma MethodEntryValid(leaves: set<Leaf>, n: string)
    ensures n in MethodSpellings(leaves) <==>
              && ParseMethodName(n).Success?
              && Leaf(ParseMethodName(n).value.0, ParseMethodName(n).value.1, ParseMethodName(n).value.2) in leaves
  {
    if n in MethodSpellings(leaves) {
      var l :| l in leaves && DotFree(l.mod) && DotFree(l.cls) && DotFree(l.mth) && n == Join([l.mod, l.cls, l.mth]);
      MethodNameRoundTrip(l.mod, l.cls, l.mth);
    }
  }

  /** Module m of t has a class, and the entries of names list every class
      of it: deleting them deletes m. */
  predicate ModuleClassesCleared(t: Tree, names: set<string>, m: string) {
    m in t && t[m] != map[] && forall c :: c in t[m] ==> ClassListed(names, m, c)
  }

  /** Class c of module m of t has a method, and the entries of names list
      every method of it: deleting them deletes c. */
  predicate ClassMethodsCleared(t: Tree, names: set<string>, m: string, c: string) {
    HasClass(t, m, c) && t[m][c] != {} && forall x :: x in t[m][c] ==> MethodExcluded(names, Leaf(m, c, x))
  }

  /** Module m of t has a class, and the entries of names list every method
      of every class of it: deleting them deletes m. */
  predicate ModuleMethodsCleared(t: Tree, names: set<string>, m: string) {
    m in t && t[m] != map[] && forall c :: c in t[m] ==> ClassMethodsCleared(t, names, m, c)
  }

  /** e is an error that deleting class entry n of the list names can raise
      after some of the other entries have been deleted from t: the entry is
      not of the form "module.class", or its class is not in t. The module
      can be reported missing only when it is not in t or the other entries
      delete all of its classes; otherwise the class is reported missing. */
  ghost predicate ClassExclusionError(t: Tree, names: set<string>, n: string, e: LoadError) {
    if Dots(n) != 1 then e == BadClassName(n)
    else
      exists m, c :: ClassErrorAt(t, names, n, m, c, e)
  }

  /** e is an error ExcludeClass can report for entry n read as the
      segments (m, c). */
  ghost predicate ClassErrorAt(t: Tree, names: set<string>, n: string, m: string, c: string, e: LoadError) {
    && DotFree(m) && DotFree(c) && n == Join([m, c]) && !HasClass(t, m, c)
    && (|| (e == ExcludeModuleMissing(n, m) && (m !in t || ModuleClassesCleared(t, names, m)))
        || (m in t && e == ExcludeClassMissing(n, c, m)))
  }

  /** e is an error that deleting method entry n of the list names can raise
      after some of the other entries have been deleted from t: the entry is
      not of the form "module.class.method", or its method is not in t. A
      level present in t is reported missing only when the other entries
      delete all of its methods, and a class only while its module keeps
      another class. */
  ghost predicate MethodExclusionError(t: Tree, names: set<string>, n: string, e: LoadError) {
    if Dots(n) != 2 then e == BadMethodName(n)
    else
      exists m, c, x :: MethodErrorAt(t, names, n, m, c, x, e)
  }

  /** e is an error ExcludeMethod can report for entry n read as the
      segments (m, c, x). */
  ghost predicate MethodErrorAt(t: Tree, names: set<string>, n: string, m: string, c: string, x: string, e: LoadError) {
    && DotFree(m) && DotFree(c) && DotFree(x) && n == Join([m, c, x])
    && Leaf(m, c, x) !in Leaves(t)
    && (|| (e == ExcludeModuleMissing(n, m) && (m !in t || ModuleMethodsCleared(t, names, m)))
        || (&& m in t && e == ExcludeClassMissing(n, c, m)
            && (c !in t[m] || (ClassMethodsCleared(t, names, m, c) && t[m].Keys != {c})))
        || (HasClass(t, m, c) && e == ExcludeMethodMissing(n, x, c)))
  }

  /** A class entry whose module is not in the tree can be reported as a
      missing module and as nothing else. */
  lemma AbsentModuleClassError(t: Tree, names: set<string>, m: string, c: string, e: LoadError)
    requires DotFree(m) && DotFree(c) && m !in t
    ensures ClassExclusionError(t, names, Join([m, c]), e) <==> e == ExcludeModuleMissing(Join([m, c]), m)
  {
    var n := Join([m, c]);
    assert Dots(n) == 1 by { ClassNameRoundTrip(m, c); }
    if ClassExclusionError(t, names, n, e) {
      var m', c' :| ClassErrorAt(t, names, n, m', c', e);
      ClassNameInjective(m', c', m, c);
    }
    if e == ExcludeModuleMissing(n, m) {
      assert ClassErrorAt(t, names, n, m, c, e);
    }
  }

  /** A class entry whose module is in the tree, but whose class is not, is
      reported as that class missing, and as nothing else, unless the
      entries list every class of the module. */
  lemma PresentModuleClassError(t: Tree, names: set<string>, m: string, c: string, e: LoadError)
    requires DotFree(m) && DotFree(c) && m in t && c !in t[m]
    requires !ModuleClassesCleared(t, names, m)
    ensures ClassExclusionError(t, names, Join([m, c]), e) <==> e == ExcludeClassMissing(Join([m, c]), c, m)
  {
    var n := Join([m, c]);
    assert Dots(n) == 1 by { ClassNameRoundTrip(m, c); }
    if ClassExclusionError(t, names, n, e) {
      var m', c' :| ClassErrorAt(t, names, n, m', c', e);
      ClassNameInjective(m', c', m, c);
    }
    if e == ExcludeClassMissing(n, c, m) {
      assert ClassErrorAt(t, names, n, m, c, e);
    }
  }

  /** A method entry whose class is not in the tree can be reported as a
      missing module, when the module is absent or the other entries delete
      all of it, or as a missing class when the module is there, and as
      nothing else: never as a missing method. */
  lemma AbsentClassMethodError(t: Tree, names: set<string>, m: string, c: string, x: string, e: LoadError)
    requires DotFree(m) && DotFree(c) && DotFree(x) && !HasClass(t, m, c)
    ensures MethodExclusionError(t, names, Join([m, c, x]), e) <==>
              || (e == ExcludeModuleMissing(Join([m, c, x]), m) && (m !in t || ModuleMethodsCleared(t, names, m)))
              || (m in t && e == ExcludeClassMissing(Join([m, c, x]), c, m))
  {
    var n := Join([m, c, x]);
    assert Dots(n) == 2 by { MethodNameRoundTrip(m, c, x); }
    if MethodExclusionError(t, names, n, e) {
      var m', c', x' :| MethodErrorAt(t, names, n, m', c', x', e);
      MethodNameInjective(m', c', x', m, c, x);
    }
    if || (e == ExcludeModuleMissing(n, m) && (m !in t || ModuleMethodsCleared(t, names, m)))
       || (m in t && e == ExcludeClassMissing(n, c, m))
    {
      assert Leaf(m, c, x) !in Leaves(t);
      assert MethodErrorAt(t, names, n, m, c, x, e);
    }
  }

  /** A method entry whose class is in the tree, but whose method is not,
      is reported as that method missing, and as nothing else, unless the
      other entries delete every method of the class. */
  lemma PresentClassMethodError(t: Tree, names: set<string>, m: string, c: string, x: string, e: LoadError)
    requires DotFree(m) && DotFree(c) && DotFree(x) && HasClass(t, m, c) && x !in t[m][c]
    requires !ClassMethodsCleared(t, names, m, c)
    ensures MethodExclusionError(t, names, Join([m, c, x]), e) <==> e == ExcludeMethodMissing(Join([m, c, x]), x, c)
  {
    var n := Join([m, c, x]);
    assert Dots(n) == 2 by { MethodNameRoundTrip(m, c, x); }
    if MethodExclusionError(t, names, n, e) {
      var m', c', x' :| MethodErrorAt(t, names, n, m', c', x', e);
      MethodNameInjective(m', c', x', m, c, x);
      assert !ModuleMethodsCleared(t, names, m);
    }
    if e == ExcludeMethodMissing(n, x, c) {
      assert Leaf(m, c, x) !in Leaves(t);
      assert MethodErrorAt(t, names, n, m, c, x, e);
    }
  }

  /** A one-entry method list naming a missing method of a present class
      fails with that method missing. */
  lemma SingleMethodEntryError(t: Tree, m: string, c: string, x: string, e: LoadError)
    requires DotFree(m) && DotFree(c) && DotFree(x) && HasClass(t, m, c) && x !in t[m][c]
    ensures MethodExclusionError(t, {Join([m, c, x])}, Join([m, c, x]), e) <==>
              e == ExcludeMethodMissing(Join([m, c, x]), x, c)
  {
    var n := Join([m, c, x]);
    if ClassMethodsCleared(t, {n}, m, c) {
      var x' :| x' in t[m][c];
      assert MethodExcluded({n}, Leaf(m, c, x'));
      MethodNameInjective(m, c, x', m, c, x);
    }
    PresentClassMethodError(t, {n}, m, c, x, e);
  }

  /** The classes of module m of t that names does not list. */
  function RemainingClasses(t: Tree, names: set<string>, m: string): map<string, set<string>>
    requires m in t
  {
    map c | c in t[m] && !ClassListed(names, m, c) :: t[m][c]
  }

  /** t without the classes listed in names, and without the modules left
      with no class. */
  function ClassesRemoved(t: Tree, names: set<string>): (r: Tree)
    ensures WellFormed(t) ==> WellFormed(r)
    ensures Leaves(r) == WithoutClasses(Leaves(t), names)
  {
    var r := map m | m in t && RemainingClasses(t, names, m) != map[] :: RemainingClasses(t, names, m);
    ClassesRemovedLeaves(t, names, r);
    r
  }

  lemma ClassesRemovedLeaves(t: Tree, names: set<string>, r: Tree)
    requires r == map m | m in t && RemainingClasses(t, names, m) != map[] :: RemainingClasses(t, names, m)
    ensures WellFormed(t) ==> WellFormed(r)
    ensures Leaves(r) == WithoutClasses(Leaves(t), names)
  {
    forall l | l in WithoutClasses(Leaves(t), names)
      ensures l in Leaves(r)
    {
      assert l.cls in RemainingClasses(t, names, l.mod);
    }
  }

  /** Deletes the classes listed in names from t. */
  method ExceptClasses(t: Tree, names: seq<string>) returns (r: Result<Tree>)
    ensures r.Success? <==> ClassExclusionsValid(t, Elems(names))
    ensures r.Success? ==> Leaves(r.value) == WithoutClasses(Leaves(t), Elems(names))
    ensures r.Success? && WellFormed(t) ==> r.value == ClassesRemoved(t, Elems(names))
    ensures r.Success? ==> r.value.Keys <= t.Keys
    ensures r.Failure? ==> exists n :: n in names && ClassExclusionError(t, Elems(names), n, r.error)
  {
    var pending := Elems(names);
    ghost var done: set<string> := {};
    var cur := t;
    while pending != {}
      invariant pending + done == Elems(names) && pending !! done
      invariant ClassExclusionsValid(t, done)
      invariant Leaves(cur) == WithoutClasses(Leaves(t), done)
      invariant WellFormed(t) ==> WellFormed(cur)
      invariant cur.Keys <= t.Keys
      invariant forall m, c :: !ClassListed(done, m, c) ==> (HasClass(cur, m, c) <==> HasClass(t, m, c))
      invariant forall m :: m in t && m !in cur ==> ModuleClassesCleared(t, done, m)
      decreases pending
    {
      var n :| n in pending;
      cur :- ExcludeClass(t, cur, done, Elems(names), n);
      pending := pending - {n};
      done := done + {n};
    }
    if WellFormed(t) {
      TreeDeterminedByLeaves(cur, ClassesRemoved(t, Elems(names)));
    }
    return Success(cur);
  }

  /** Parses one class entry of the list names and deletes that class from
      cur, the tree left after the entries done were deleted from t. */
  method ExcludeClass(ghost t: Tree, cur: Tree, ghost done: set<string>, ghost names: set<string>, n: string)
    returns (r: Result<Tree>)
    requires n !in done && done <= names
    requires Leaves(cur) == WithoutClasses(Leaves(t), done)
    requires cur.Keys <= t.Keys
    requires forall m, c :: !ClassListed(done, m, c) ==> (HasClass(cur, m, c) <==> HasClass(t, m, c))
    requires forall m :: m in t && m !in cur ==> ModuleClassesCleared(t, done, m)
    ensures r.Success? <==> ClassExclusionsValid(t, {n})
    ensures r.Success? ==> r.value.Keys <= t.Keys
    ensures r.Success? ==> Leaves(r.value) == WithoutClasses(Leaves(t), done + {n})
    ensures r.Success? ==>
              forall m, c :: !ClassListed(done + {n}, m, c) ==> (HasClass(r.value, m, c) <==> HasClass(t, m, c))
    ensures r.Success? ==> forall m :: m in t && m !in r.value ==> ModuleClassesCleared(t, done + {n}, m)
    ensures r.Success? && WellFormed(cur) ==> WellFormed(r.value)
    ensures r.Failure? ==> ClassExclusionError(t, names, n, r.error)
    ensures r.Failure? && ParseClassName(n).Success? ==>
              r == DeleteClass(cur, ParseClassName(n).value.0, ParseClassName(n).value.1)
  {
    ClassEntryValid(t, n);
    var parsed :- ParseClassName(n);
    var (m, c) := parsed;
    assert !ClassListed(done, m, c);
    r := DeleteClass(cur, m, c);
    if r.Success? {
      ClassDeletionStep(t, cur, r.value, done, n, m, c);
    } else {
      ClassFailureError(t, cur, done, names, n, m, c);
    }
  }

  /** One successful class deletion extends the excluded set by its entry. */
  lemma ClassDeletionStep(t: Tree, cur: Tree, next: Tree, done: set<string>, n: string, m: string, c: string)
    requires ParseClassName(n) == Success((m, c)) && n !in done
    requires DeleteClass(cur, m, c) == Success(next)
    requires Leaves(cur) == WithoutClasses(Leaves(t), done)
    requires forall m', c' :: !ClassListed(done, m', c') ==> (HasClass(cur, m', c') <==> HasClass(t, m', c'))
    requires forall m' :: m' in t && m' !in cur ==> ModuleClassesCleared(t, done, m')
    ensures Leaves(next) == WithoutClasses(Leaves(t), done + {n})
    ensures forall m', c' :: !ClassListed(done + {n}, m', c') ==> (HasClass(next, m', c') <==> HasClass(t, m', c'))
    ensures forall m' :: m' in t && m' !in next ==> ModuleClassesCleared(t, done + {n}, m')
  {
    ClassExcludedStep(done, n, m, c);
    forall m', c' | !ClassListed(done + {n}, m', c')
      ensures HasClass(next, m', c') <==> HasClass(t, m', c')
    {
      assert ClassListed(done + {n}, m, c);
    }
    forall m' | m' in t && m' !in next
      ensures ModuleClassesCleared(t, done + {n}, m')
    {
      if m' == m && m in cur {
        assert !ClassListed(done, m, c) && HasClass(cur, m, c);
        forall c' | c' in t[m]
          ensures ClassListed(done + {n}, m, c')
        {
          if !ClassListed(done, m, c') {
            assert c' in cur[m];
          }
        }
      }
    }
  }

  /** A failed class deletion raises an error the predicate allows. */
  lemma ClassFailureError(t: Tree, cur: Tree, done: set<string>, names: set<string>, n: string, m: string, c: string)
    requires ParseClassName(n) == Success((m, c))
    requires DeleteClass(cur, m, c).Failure?
    requires n !in done && done <= names
    requires cur.Keys <= t.Keys
    requires forall m', c' :: !ClassListed(done, m', c') ==> (HasClass(cur, m', c') <==> HasClass(t, m', c'))
    requires forall m' :: m' in t && m' !in cur ==> ModuleClassesCleared(t, done, m')
    ensures ClassErrorAt(t, names, n, m, c, DeleteClass(cur, m, c).error)
  {
    assert !ClassListed(done, m, c);
    if m in t && m !in cur {
      assert ModuleClassesCleared(t, done, m);
      assert ModuleClassesCleared(t, names, m);
    }
  }

  /** Adding entry n, the spelling of class (m, c), to the excluded set
      excludes exactly the leaves of that class in addition. */
  lemma ClassExcludedStep(done: set<string>, n: string, m: string, c: string)
    requires DotFree(m) && DotFree(c) && n == Join([m, c])
    ensures forall m', c' :: ClassListed(done + {n}, m', c') <==> ClassListed(done, m', c') || (m' == m && c' == c)
  {
    forall m', c' | ClassListed(done + {n}, m', c') && !ClassListed(done, m', c')
      ensures m' == m && c' == c
    {
      ClassNameInjective(m', c', m, c);
    }
  }

  /** Adding entry n, the spelling of method (m, c, x), to the excluded set
      excludes exactly that leaf in addition. */
  lemma MethodExcludedStep(done: set<string>, n: string, m: string, c: string, x: string)
    requires DotFree(m) && DotFree(c) && DotFree(x) && n == Join([m, c, x])
    ensures forall l :: MethodExcluded(done + {n}, l) <==> MethodExcluded(done, l) || l == Leaf(m, c, x)
  {
    forall l | MethodExcluded(done + {n}, l) && !MethodExcluded(done, l)
      ensures l == Leaf(m, c, x)
    {
      MethodNameInjective(l.mod, l.cls, l.mth, m, c, x);
    }
  }

  /** Deletes the methods listed in names from t. */
  method ExceptMethods(t: Tree, names: seq<string>) returns (r: Result<Tree>)
    ensures r.Success? <==> MethodExclusionsValid(Leaves(t), Elems(names))
    ensures r.Success? ==> Leaves(r.value) == WithoutMethods(Leaves(t), Elems(names))
    ensures r.Success? && WellFormed(t) ==> WellFormed(r.value)
    ensures r.Failure? ==> exists n :: n in names && MethodExclusionError(t, Elems(names), n, r.error)
  {
    var pending := Elems(names);
    ghost var done: set<string> := {};
    var cur := t;
    while pending != {}
      invariant pending + done == Elems(names) && pending !! done
      invariant MethodExclusionsValid(Leaves(t), done)
      invariant Leaves(cur) == WithoutMethods(Leaves(t), done)
      invariant WellFormed(t) ==> WellFormed(cur)
      invariant cur.Keys <= t.Keys
      invariant forall m, c :: HasClass(cur, m, c) ==> HasClass(t, m, c)
      invariant MethodsPruned(t, cur, done)
      decreases pending
    {
      var n :| n in pending;
      cur :- ExcludeMethod(t, cur, done, Elems(names), n);
      pending := pending - {n};
      done := done + {n};
    }
    return Success(cur);
  }

  /** cur, the tree left after the entries done were deleted from t, lacks
      a module or class of t only when those entries deleted all of its
      methods, and has no module without classes that t did not have. */
  ghost predicate MethodsPruned(t: Tree, cur: Tree, done: set<string>) {
    && (forall m :: m in t && m !in cur ==> ModuleMethodsCleared(t, done, m))
    && (forall m, c :: HasClass(t, m, c) && m in cur && c !in cur[m] ==> ClassMethodsCleared(t, done, m, c))
    && (forall m :: m in cur && cur[m] == map[] ==> m in t && t[m] == map[])
  }

  /** Parses one method entry of the list names and deletes that method
      from cur, the tree left after the entries done were deleted from t. */
  method ExcludeMethod(ghost t: Tree, cur: Tree, ghost done: set<string>, ghost names: set<string>, n: string)
    returns (r: Result<Tree>)
    requires n !in done && done <= names
    requires Leaves(cur) == WithoutMethods(Leaves(t), done)
    requires cur.Keys <= t.Keys
    requires forall m, c :: HasClass(cur, m, c) ==> HasClass(t, m, c)
    requires MethodsPruned(t, cur, done)
    ensures r.Success? <==> MethodExclusionsValid(Leaves(t), {n})
    ensures r.Success? ==> r.value.Keys <= t.Keys
    ensures r.Success? ==> forall m, c :: HasClass(r.value, m, c) ==> HasClass(t, m, c)
    ensures r.Success? ==> Leaves(r.value) == WithoutMethods(Leaves(t), done + {n})
    ensures r.Success? ==> MethodsPruned(t, r.value, done + {n})
    ensures r.Success? && WellFormed(cur) ==> WellFormed(r.value)
    ensures r.Failure? ==> MethodExclusionError(t, names, n, r.error)
    ensures r.Failure? && ParseMethodName(n).Success? ==>
              r == DeleteMethod(cur, ParseMethodName(n).value.0, ParseMethodName(n).value.1, ParseMethodName(n).value.2)
  {
    MethodEntryValid(Leaves(t), n);
    var parsed :- ParseMethodName(n);
    var (m, c, x) := parsed;
    assert !MethodExcluded(done, Leaf(m, c, x));
    r := DeleteMethod(cur, m, c, x);
    if r.Success? {
      MethodDeletionStep(t, cur, r.value, done, n, m, c, x);
      MethodPruningStep(t, cur, r.value, done, n, m, c, x);
    } else {
      MethodFailureError(t, cur, done, names, n, m, c, x);
    }
  }

  /** One successful method deletion extends the excluded set by its entry. */
  lemma MethodDeletionStep(t: Tree, cur: Tree, next: Tree, done: set<string>, n: string, m: string, c: string, x: string)
    requires ParseMethodName(n) == Success((m, c, x))
    requires DeleteMethod(cur, m, c, x) == Success(next)
    requires Leaves(cur) == WithoutMethods(Leaves(t), done)
    ensures Leaves(next) == WithoutMethods(Leaves(t), done + {n})
  {
    MethodExcludedStep(done, n, m, c, x);
  }

  /** Deleting the last remaining method x of class c clears c. */
  lemma LastMethodCleared(t: Tree, cur: Tree, done: set<string>, n: string, m: string, c: string, x: string)
    requires ParseMethodName(n) == Success((m, c, x))
    requires Leaves(cur) == WithoutMethods(Leaves(t), done)
    requires forall m', c' :: HasClass(cur, m', c') ==> HasClass(t, m', c')
    requires HasClass(cur, m, c) && cur[m][c] == {x}
    ensures ClassMethodsCleared(t, done + {n}, m, c)
  {
    assert Leaf(m, c, x) in Leaves(cur);
    forall x' | x' in t[m][c]
      ensures MethodExcluded(done + {n}, Leaf(m, c, x'))
    {
      if !MethodExcluded(done, Leaf(m, c, x')) {
        assert Leaf(m, c, x') in Leaves(cur);
      }
    }
  }

  /** One successful method deletion keeps MethodsPruned, with its entry added. */
  lemma MethodPruningStep(t: Tree, cur: Tree, next: Tree, done: set<string>, n: string, m: string, c: string, x: string)
    requires ParseMethodName(n) == Success((m, c, x))
    requires DeleteMethod(cur, m, c, x) == Success(next)
    requires Leaves(cur) == WithoutMethods(Leaves(t), done)
    requires forall m', c' :: HasClass(cur, m', c') ==> HasClass(t, m', c')
    requires MethodsPruned(t, cur, done)
    ensures MethodsPruned(t, next, done + {n})
  {
    if cur[m][c] == {x} {
      LastMethodCleared(t, cur, done, n, m, c, x);
    }
    ModulesPrunedStep(t, cur, next, done, n, m, c, x);
    ClassesPrunedStep(t, cur, next, done, n, m, c, x);
  }

  lemma ModulesPrunedStep(t: Tree, cur: Tree, next: Tree, done: set<string>, n: string, m: string, c: string, x: string)
    requires ParseMethodName(n) == Success((m, c, x))
    requires DeleteMethod(cur, m, c, x) == Success(next)
    requires MethodsPruned(t, cur, done)
    requires HasClass(cur, m, c) && cur[m][c] == {x} ==> ClassMethodsCleared(t, done + {n}, m, c)
    ensures forall m' :: m' in t && m' !in next ==> ModuleMethodsCleared(t, done + {n}, m')
  {
    forall m' | m' in t && m' !in next
      ensures ModuleMethodsCleared(t, done + {n}, m')
    {
      if m' == m && m in cur {
        forall c' | c' in t[m]
          ensures ClassMethodsCleared(t, done + {n}, m, c')
        {
          if c' != c {
            assert c' !in cur[m];
            assert ClassMethodsCleared(t, done, m, c');
          }
        }
      } else {
        assert ModuleMethodsCleared(t, done, m');
      }
    }
  }

  lemma ClassesPrunedStep(t: Tree, cur: Tree, next: Tree, done: set<string>, n: string, m: string, c: string, x: string)
    requires ParseMethodName(n) == Success((m, c, x))
    requires DeleteMethod(cur, m, c, x) == Success(next)
    requires MethodsPruned(t, cur, done)
    requires HasClass(cur, m, c) && cur[m][c] == {x} ==> ClassMethodsCleared(t, done + {n}, m, c)
    ensures forall m', c' :: HasClass(t, m', c') && m' in next && c' !in next[m'] ==> ClassMethodsCleared(t, done + {n}, m', c')
    ensures forall m' :: m' in next && next[m'] == map[] ==> m' in t && t[m'] == map[]
  {
    forall m', c' | HasClass(t, m', c') && m' in next && c' !in next[m']
      ensures ClassMethodsCleared(t, done + {n}, m', c')
    {
      if m' != m || c' != c {
        assert ClassMethodsCleared(t, done, m', c');
      }
    }
  }

  /** A failed method deletion raises an error the predicate allows. */
  lemma MethodFailureError(t: Tree, cur: Tree, done: set<string>, names: set<string>, n: string, m: string, c: string, x: string)
    requires ParseMethodName(n) == Success((m, c, x))
    requires DeleteMethod(cur, m, c, x).Failure?
    requires n !in done && done <= names
    requires Leaves(cur) == WithoutMethods(Leaves(t), done)
    requires cur.Keys <= t.Keys
    requires forall m', c' :: HasClass(cur, m', c') ==> HasClass(t, m', c')
    requires MethodsPruned(t, cur, done)
    ensures MethodErrorAt(t, names, n, m, c, x, DeleteMethod(cur, m, c, x).error)
  {
    assert !MethodExcluded(done, Leaf(m, c, x));
    assert Leaf(m, c, x) !in Leaves(t);
    if m in t && m !in cur {
      assert ModuleMethodsCleared(t, done, m);
      assert ModuleMethodsCleared(t, names, m);
    } else if m in cur && c !in cur[m] && c in t[m] {
      assert ClassMethodsCleared(t, done, m, c);
      assert ClassMethodsCleared(t, names, m, c);
      assert cur[m] != map[];
      var c' :| c' in cur[m];
      assert HasClass(cur, m, c') && c' != c;
    }
  }

  /** A class listed twice is accepted, because the list is deduplicated
      first; deleting the class a second time would fail. */
  lemma DuplicateClassExclusion(t: Tree, n: string)
    requires ClassExclusionsValid(t, {n})
    ensures ClassExclusionsValid(t, Elems([n, n]))
    ensures ParseClassName(n).Success?
    ensures var (m, c) := ParseClassName(n).value;
            DeleteClass(t, m, c).Success? && DeleteClass(DeleteClass(t, m, c).value, m, c).Failure?
  {
    ClassEntryValid(t, n);
    assert Elems([n, n]) == {n};
  }

  /** A method listed twice is accepted; deleting it a second time would fail. */
  lemma DuplicateMethodExclusion(t: Tree, n: string)
    requires MethodExclusionsValid(Leaves(t), {n})
    ensures MethodExclusionsValid(Leaves(t), Elems([n, n]))
    ensures ParseMethodName(n).Success?
    ensures var (m, c, x) := ParseMethodName(n).value;
            DeleteMethod(t, m, c, x).Success? && DeleteMethod(DeleteMethod(t, m, c, x).value, m, c, x).Failure?
  {
    MethodEntryValid(Leaves(t), n);
    assert Elems([n, n]) == {n};
  }

  /** Class exclusions are applied first: a method exclusion that falls in an
      excluded class finds nothing to delete and fails. */
  lemma ExcludedClassBlocksMethodExclusion(leaves: set<Leaf>, classNames: set<string>, n: string)
    requires ParseMethodName(n).Success?
    requires var (m, c, _) := ParseMethodName(n).value; Join([m, c]) in classNames
    ensures !MethodExclusionsValid(WithoutClasses(leaves, classNames), {n})
  {
    MethodEntryValid(WithoutClasses(leaves, classNames), n);
  }

  /** Class exclusions are applied first: a one-entry method list naming a
      method of an excluded class c, in a module that keeps another class c',
      fails with c missing from the module, and with nothing else. */
  lemma ExcludedClassMethodError(t: Tree, classNames: set<string>, m: string, c: string, c': string, x: string, e: LoadError)
    requires DotFree(m) && DotFree(c) && DotFree(x)
    requires ClassListed(classNames, m, c)
    requires HasClass(t, m, c') && !ClassListed(classNames, m, c')
    ensures MethodExclusionError(ClassesRemoved(t, classNames), {Join([m, c, x])}, Join([m, c, x]), e) <==>
              e == ExcludeClassMissing(Join([m, c, x]), c, m)
  {
    var t' := ClassesRemoved(t, classNames);
    var n := Join([m, c, x]);
    assert c' in RemainingClasses(t, classNames, m);
    assert m in t' && c' in t'[m] && c !in t'[m];
    if ModuleMethodsCleared(t', {n}, m) {
      assert ClassMethodsCleared(t', {n}, m, c');
      var x' :| x' in t'[m][c'];
      assert MethodExcluded({n}, Leaf(m, c', x'));
      MethodNameInjective(m, c', x', m, c, x);
    }
    AbsentClassMethodError(t', {n}, m, c, x, e);
  }
}
