/**
 The name tree: module name to class name to the set of selected method
 names. A tree is a value; deleting a class or a method returns a new tree
 or the error the loader raises when the exclusion names something absent.
 */
module NameTrees {
  import opened Outcomes
  import opened DottedNames

  type Tree = map<string, map<string, set<string>>>

  /** One method reachable in a tree, with the module and class above it. */
  datatype Leaf = Leaf(mod: string, cls: string, mth: string)

  function Leaves(t: Tree): set<Leaf> {
    set m, c, x | m in t && c in t[m] && x in t[m][c] :: Leaf(m, c, x)
  }

  /** No module without classes and no class without methods. */
  predicate WellFormed(t: Tree) {
    forall m :: m in t ==> t[m] != map[] && forall c :: c in t[m] ==> t[m][c] != {}
  }

  predicate HasClass(t: Tree, m: string, c: string) {
    m in t && c in t[m]
  }

  /** A well-formed tree is determined by its leaves. */
  lemma TreeDeterminedByLeaves(t1: Tree, t2: Tree)
    requires WellFormed(t1) && WellFormed(t2)
    requires Leaves(t1) == Leaves(t2)
    ensures t1 == t2
  {
    forall m | m in t1
      ensures m in t2
    {
      var c :| c in t1[m];
      var x :| x in t1[m][c];
      assert Leaf(m, c, x) in Leaves(t1);
    }
    forall m | m in t2
      ensures m in t1
    {
      var c :| c in t2[m];
      var x :| x in t2[m][c];
      assert Leaf(m, c, x) in Leaves(t2);
    }
    forall m | m in t1
      ensures t1[m] == t2[m]
    {
      forall c | c in t1[m]
        ensures c in t2[m] && t1[m][c] == t2[m][c]
      {
        var x :| x in t1[m][c];
        assert Leaf(m, c, x) in Leaves(t1);
        forall y | y in t1[m][c] ensures y in t2[m][c] {
          assert Leaf(m, c, y) in Leaves(t1);
        }
        forall y | y in t2[m][c] ensures y in t1[m][c] {
          assert Leaf(m, c, y) in Leaves(t2);
        }
      }
      forall c | c in t2[m]
        ensures c in t1[m]
      {
        var x :| x in t2[m][c];
        assert Leaf(m, c, x) in Leaves(t2);
      }
    }
  }

  /** Removes class c of module m, and m too when it has no class left. */
  function DeleteClass(t: Tree, m: string, c: string): (r: Result<Tree>)
    ensures r.Success? <==> HasClass(t, m, c)
    ensures m !in t ==> r == Failure(ExcludeModuleMissing(Join([m, c]), m))
    ensures m in t && c !in t[m] ==> r == Failure(ExcludeClassMissing(Join([m, c]), c, m))
    ensures r.Success? ==>
              Leaves(r.value) == set l | l in Leaves(t) && !(l.mod == m && l.cls == c)
    ensures r.Success? ==>
              forall m', c' :: (m', c') != (m, c) ==> (HasClass(r.value, m', c') <==> HasClass(t, m', c'))
    ensures r.Success? ==>
              forall m' :: m' in t && m' != m ==> m' in r.value && r.value[m'] == t[m']
    ensures r.Success? ==> r.value.Keys <= t.Keys
    ensures r.Success? ==> (m in r.value <==> t[m].Keys != {c})
    ensures r.Success? && m in r.value ==> r.value[m] == t[m] - {c} && r.value[m] != map[]
    ensures r.Success? && WellFormed(t) ==> WellFormed(r.value)
  {
    var long := Join([m, c]);
    if m !in t then Failure(ExcludeModuleMissing(long, m))
    else if c !in t[m] then Failure(ExcludeClassMissing(long, c, m))
    else
      var rest := t[m] - {c};
      assert rest.Keys == t[m].Keys - {c};
      assert rest == map[] <==> rest.Keys == {};
      assert rest == map[] <==> t[m].Keys == {c};
      Success(if rest == map[] then t - {m} else t[m := rest])
  }

  /** Removes method x of class c of module m, then c if it has no method
      left, then m if it has no class left. */
  function DeleteMethod(t: Tree, m: string, c: string, x: string): (r: Result<Tree>)
    ensures r.Success? <==> Leaf(m, c, x) in Leaves(t)
    ensures m !in t ==> r == Failure(ExcludeModuleMissing(Join([m, c, x]), m))
    ensures m in t && c !in t[m] ==>
              r == Failure(ExcludeClassMissing(Join([m, c, x]), c, m))
    ensures HasClass(t, m, c) && x !in t[m][c] ==>
              r == Failure(ExcludeMethodMissing(Join([m, c, x]), x, c))
    ensures r.Success? ==> Leaves(r.value) == Leaves(t) - {Leaf(m, c, x)}
    ensures r.Success? ==>
              forall m' :: m' in t && m' != m ==> m' in r.value && r.value[m'] == t[m']
    ensures r.Success? && m in r.value ==>
              forall c' :: c' in t[m] && c' != c ==> c' in r.value[m] && r.value[m][c'] == t[m][c']
    ensures r.Success? ==> r.value.Keys <= t.Keys
    ensures r.Success? ==> forall m', c' :: HasClass(r.value, m', c') ==> HasClass(t, m', c')
    ensures r.Success? ==> (HasClass(r.value, m, c) <==> t[m][c] != {x})
    ensures r.Success? && HasClass(r.value, m, c) ==> r.value[m][c] == t[m][c] - {x}
    ensures r.Success? ==> (m in r.value <==> !(t[m].Keys == {c} && t[m][c] == {x}))
    ensures r.Success? && m in r.value ==> r.value[m] != map[]
    ensures r.Success? && WellFormed(t) ==> WellFormed(r.value)
  {
    var long := Join([m, c, x]);
    if m !in t then Failure(ExcludeModuleMissing(long, m))
    else if c !in t[m] then Failure(ExcludeClassMissing(long, c, m))
    else if x !in t[m][c] then Failure(ExcludeMethodMissing(long, x, c))
    else
      var methods := t[m][c] - {x};
      assert methods == {} <==> t[m][c] == {x};
      var classes := if methods == {} then t[m] - {c} else t[m][c := methods];
      assert methods == {} ==> classes.Keys == t[m].Keys - {c};
      assert methods != {} ==> classes.Keys == t[m].Keys;
      assert classes == map[] <==> classes.Keys == {};
      assert classes == map[] <==> t[m].Keys == {c} && t[m][c] == {x};
      Success(if classes == map[] then t - {m} else t[m := classes])
  }
}
