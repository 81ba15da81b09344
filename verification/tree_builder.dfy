/**
 Building the name tree from introspected modules: every class that passes
 the class filter and has at least one test method becomes a branch holding
 exactly those test methods; empty classes and modules are never inserted.
 */
module TreeBuilder {
  import opened Outcomes
  import opened DottedNames
  import opened Introspection
  import opened NameTrees

  /** The class filter: empty means every class; otherwise "mod.cls" must be listed. */
  predicate Selected(filter: set<string>, m: string, c: string) {
    filter == {} || Join([m, c]) in filter
  }

  predicate ModulesPresent(catalog: Catalog, pkg: string, mods: set<string>) {
    forall m :: m in mods ==> FullModuleName(pkg, m) in catalog
  }

  /** The branch of module m contributed by the classes named in keys. */
  function BranchOf(classes: ModuleClasses, keys: set<string>, m: string, filter: set<string>, prefix: string)
    : map<string, set<string>>
  {
    map c | c in keys && c in classes && Selected(filter, m, c) && PrefixedMethods(classes[c], prefix) != {}
      :: PrefixedMethods(classes[c], prefix)
  }

  /** The tree built from modules mods; a module missing from the catalog contributes nothing. */
  function TreeOf(catalog: Catalog, pkg: string, mods: set<string>, filter: set<string>, prefix: string): Tree {
    map m | m in mods && FullModuleName(pkg, m) in catalog
                      && BranchOf(catalog[FullModuleName(pkg, m)], catalog[FullModuleName(pkg, m)].Keys, m, filter, prefix) != map[]
      :: BranchOf(catalog[FullModuleName(pkg, m)], catalog[FullModuleName(pkg, m)].Keys, m, filter, prefix)
  }

  /** Leaf l is a test method of a selected class of one of the modules mods. */
  predicate Discovered(catalog: Catalog, pkg: string, mods: set<string>, filter: set<string>, prefix: string, l: Leaf) {
    && l.mod in mods && FullModuleName(pkg, l.mod) in catalog
    && l.cls in catalog[FullModuleName(pkg, l.mod)]
    && Selected(filter, l.mod, l.cls)
    && l.mth in catalog[FullModuleName(pkg, l.mod)][l.cls]
    && IsTestMethod(prefix, l.mth)
  }

  /** The built tree never holds an empty class or module, each class holds
      exactly its test methods, only filtered classes appear, and its leaves
      are exactly the test methods of the selected classes of the listed modules. */
  lemma BuiltTreeShape(catalog: Catalog, pkg: string, mods: set<string>, filter: set<string>, prefix: string)
    ensures WellFormed(TreeOf(catalog, pkg, mods, filter, prefix))
    ensures var t := TreeOf(catalog, pkg, mods, filter, prefix);
            forall m, c :: HasClass(t, m, c) ==>
              && m in mods && Selected(filter, m, c)
              && c in catalog[FullModuleName(pkg, m)]
              && t[m][c] == PrefixedMethods(catalog[FullModuleName(pkg, m)][c], prefix)
    ensures forall l :: l in Leaves(TreeOf(catalog, pkg, mods, filter, prefix)) <==>
              Discovered(catalog, pkg, mods, filter, prefix, l)
  {
    var t := TreeOf(catalog, pkg, mods, filter, prefix);
    forall l | Discovered(catalog, pkg, mods, filter, prefix, l)
      ensures l in Leaves(t)
    {
      var classes := catalog[FullModuleName(pkg, l.mod)];
      assert l.mth in PrefixedMethods(classes[l.cls], prefix);
      assert l.cls in BranchOf(classes, classes.Keys, l.mod, filter, prefix);
      assert l == Leaf(l.mod, l.cls, l.mth);
    }
  }

  lemma BranchStep(classes: ModuleClasses, done: set<string>, c: string, m: string, filter: set<string>, prefix: string)
    requires c in classes
    ensures BranchOf(classes, done + {c}, m, filter, prefix)
            == if Selected(filter, m, c) && PrefixedMethods(classes[c], prefix) != {}
               then BranchOf(classes, done, m, filter, prefix)[c := PrefixedMethods(classes[c], prefix)]
               else BranchOf(classes, done, m, filter, prefix)
  {
  }

  /** The tree over done + {m} expected from the tree over done. */
  function TreeExtended(catalog: Catalog, pkg: string, done: set<string>, m: string, filter: set<string>, prefix: string): Tree
    requires FullModuleName(pkg, m) in catalog
  {
    var branch := BranchOf(catalog[FullModuleName(pkg, m)], catalog[FullModuleName(pkg, m)].Keys, m, filter, prefix);
    if branch != map[] then TreeOf(catalog, pkg, done, filter, prefix)[m := branch]
    else TreeOf(catalog, pkg, done, filter, prefix)
  }

  lemma TreeStepKeys(catalog: Catalog, pkg: string, done: set<string>, m: string, filter: set<string>, prefix: string)
    requires FullModuleName(pkg, m) in catalog
    ensures TreeOf(catalog, pkg, done + {m}, filter, prefix).Keys == TreeExtended(catalog, pkg, done, m, filter, prefix).Keys
  {
  }

  lemma TreeStepValues(catalog: Catalog, pkg: string, done: set<string>, m: string, filter: set<string>, prefix: string)
    requires FullModuleName(pkg, m) in catalog
    ensures forall k :: k in TreeOf(catalog, pkg, done + {m}, filter, prefix) && k in TreeExtended(catalog, pkg, done, m, filter, prefix) ==>
              TreeOf(catalog, pkg, done + {m}, filter, prefix)[k] == TreeExtended(catalog, pkg, done, m, filter, prefix)[k]
  {
  }

  lemma TreeStep(catalog: Catalog, pkg: string, done: set<string>, m: string, filter: set<string>, prefix: string)
    requires FullModuleName(pkg, m) in catalog
    ensures TreeOf(catalog, pkg, done + {m}, filter, prefix) == TreeExtended(catalog, pkg, done, m, filter, prefix)
  {
    TreeStepKeys(catalog, pkg, done, m, filter, prefix);
    TreeStepValues(catalog, pkg, done, m, filter, prefix);
  }

  /** The branch for one module: its selected classes with their test methods. */
  method ModuleBranch(classes: ModuleClasses, m: string, filter: set<string>, prefix: string)
    returns (branch: map<string, set<string>>)
    ensures branch == BranchOf(classes, classes.Keys, m, filter, prefix)
  {
    var pending := classes.Keys;
    ghost var done: set<string> := {};
    branch := map[];
    while pending != {}
      invariant pending + done == classes.Keys && pending !! done
      invariant branch == BranchOf(classes, done, m, filter, prefix)
      decreases pending
    {
      var c :| c in pending;
      BranchStep(classes, done, c, m, filter, prefix);
      if Selected(filter, m, c) {
        var names := MethodNamesByClass(classes[c], prefix);
        var found := set n | n in names;
        assert found == PrefixedMethods(classes[c], prefix);
        if |names| != 0 {
          assert names[0] in found;
          branch := branch[c := found];
        } else {
          assert found == {};
        }
      }
      pending := pending - {c};
      done := done + {c};
    }
  }

  /** Introspects every module and collects the tree; fails on a module that
      static inspection cannot locate. */
  method BuildNameTree(catalog: Catalog, pkg: string, mods: set<string>, filter: set<string>, prefix: string)
    returns (r: Result<Tree>)
    ensures r.Success? <==> ModulesPresent(catalog, pkg, mods)
    ensures r.Success? ==> r.value == TreeOf(catalog, pkg, mods, filter, prefix)
    ensures r.Failure? ==>
              exists m :: m in mods && FullModuleName(pkg, m) !in catalog
                          && r.error == ModuleNotFound(FullModuleName(pkg, m))
  {
    var pending := mods;
    ghost var done: set<string> := {};
    var tree: Tree := map[];
    while pending != {}
      invariant pending + done == mods && pending !! done
      invariant ModulesPresent(catalog, pkg, done)
      invariant tree == TreeOf(catalog, pkg, done, filter, prefix)
      decreases pending
    {
      var m :| m in pending;
      var classes :- InspectModule(catalog, pkg, m);
      TreeStep(catalog, pkg, done, m, filter, prefix);
      var branch := ModuleBranch(classes, m, filter, prefix);
      if branch != map[] {
        tree := tree[m := branch];
      }
      pending := pending - {m};
      done := done + {m};
    }
    return Success(tree);
  }
}
