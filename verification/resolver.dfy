/**
 Turning a test configuration into the full method names of each listed
 suite. A suite is a package (possibly none), a worker count and a sequence
 of groups; each group selects tests at module, class or method granularity,
 and the suite's names are the union over its enabled groups. The first group
 that fails aborts the whole configuration with its error.
 */
module Resolver {
  import opened Outcomes
  import opened DottedNames
  import opened Introspection
  import opened NameTrees
  import opened TreeBuilder
  import opened Exclusions
  import opened Flattening
  import opened FirstFailures

  /** One group of a suite. A list the configuration leaves out is empty. */
  datatype Group = Group(
    granularity: string,
    modules: seq<string>,
    classes: seq<string>,
    methods: seq<string>,
    exceptClasses: seq<string>,
    exceptMethods: seq<string>,
    disable: bool)

  /** One suite as configured; a missing or null package is None. */
  datatype SuiteConf = SuiteConf(package: Option<string>, maxWorkers: Option<int>, groups: seq<Group>)

  /** The configuration: the suites to run, in order, and every defined suite. */
  datatype Config = Config(testSuites: seq<string>, suites: map<string, SuiteConf>)

  /** What the loader reports for one suite. */
  datatype SuiteInfo = SuiteInfo(package: string, testCaseNames: set<string>, maxWorkers: int)

  const Granularities: seq<string> := ["module", "class", "method"]

  /** The package used as prefix: an absent or empty package is no package (""). */
  function PackageName(p: Option<string>): string {
    match p
    case None => ""
    case Some(s) => s
  }

  /** The package as reported: the text "None" when there is no package. */
  function PackageLabel(pkg: string): (shown: string)
    ensures shown != ""
    ensures pkg != "" ==> shown == pkg
    ensures pkg == "" ==> shown == "None"
  {
    if pkg == "" then "None" else pkg
  }

  /** The build of ModuleNotFound that some missing module of mods raises. */
  ghost predicate MissingModuleError(catalog: Catalog, pkg: string, mods: set<string>, e: LoadError) {
    exists m :: m in mods && FullModuleName(pkg, m) !in catalog && e == ModuleNotFound(FullModuleName(pkg, m))
  }

  // ---------------------------------------------------------------- module granularity

  function ModuleGroupTree(catalog: Catalog, prefix: string, pkg: string, g: Group): Tree {
    TreeOf(catalog, pkg, Elems(g.modules), {}, prefix)
  }

  /** Every module is found, every excluded class exists, and every excluded
      method exists once the excluded classes are gone. */
  predicate ModuleGroupOk(catalog: Catalog, prefix: string, pkg: string, g: Group) {
    var t := ModuleGroupTree(catalog, prefix, pkg, g);
    && ModulesPresent(catalog, pkg, Elems(g.modules))
    && ClassExclusionsValid(t, Elems(g.exceptClasses))
    && MethodExclusionsValid(WithoutClasses(Leaves(t), Elems(g.exceptClasses)), Elems(g.exceptMethods))
  }

  /** The test methods of the listed modules outside the excluded classes and methods. */
  function ModuleGroupLeaves(catalog: Catalog, prefix: string, pkg: string, g: Group): set<Leaf> {
    var t := ModuleGroupTree(catalog, prefix, pkg, g);
    WithoutMethods(WithoutClasses(Leaves(t), Elems(g.exceptClasses)), Elems(g.exceptMethods))
  }

  /** e is an error a failing module group can raise, stage by stage. */
  ghost predicate ModuleGroupError(catalog: Catalog, prefix: string, pkg: string, g: Group, e: LoadError) {
    var t := ModuleGroupTree(catalog, prefix, pkg, g);
    if !ModulesPresent(catalog, pkg, Elems(g.modules)) then
      MissingModuleError(catalog, pkg, Elems(g.modules), e)
    else if !ClassExclusionsValid(t, Elems(g.exceptClasses)) then
      exists n :: n in g.exceptClasses && ClassExclusionError(t, Elems(g.exceptClasses), n, e)
    else
      exists n :: n in g.exceptMethods && MethodExclusionError(ClassesRemoved(t, Elems(g.exceptClasses)), Elems(g.exceptMethods), n, e)
  }

  method ResolveModuleGroup(catalog: Catalog, prefix: string, pkg: string, g: Group) returns (r: Result<set<string>>)
    ensures r.Success? <==> ModuleGroupOk(catalog, prefix, pkg, g)
    ensures r.Success? ==> r.value == FullNames(pkg, ModuleGroupLeaves(catalog, prefix, pkg, g))
    ensures r.Failure? ==> ModuleGroupError(catalog, prefix, pkg, g, r.error)
  {
    var built :- BuildNameTree(catalog, pkg, Elems(g.modules), {}, prefix);
    BuiltTreeShape(catalog, pkg, Elems(g.modules), {}, prefix);
    var afterClasses :- ExceptClasses(built, g.exceptClasses);
    var afterMethods :- ExceptMethods(afterClasses, g.exceptMethods);
    return Success(FlattenTree(pkg, afterMethods));
  }

  // ---------------------------------------------------------------- class granularity

  /** Every entry has exactly one dot, the condition for it to parse as "module.class". */
  predicate ClassNamesParse(names: seq<string>) {
    forall n :: n in names ==> Dots(n) == 1
  }

  /** The modules named by the well-formed "module.class" entries. */
  function ClassMods(names: set<string>): set<string> {
    set n | n in names && ParseClassName(n).Success? :: ParseClassName(n).value.0
  }

  function ClassGroupTree(catalog: Catalog, prefix: string, pkg: string, g: Group): Tree {
    TreeOf(catalog, pkg, ClassMods(Elems(g.classes)), Elems(g.classes), prefix)
  }

  /** Every class entry is well formed, the modules they name are found, and
      every excluded method exists. A listed class absent from its module is
      not an error. */
  predicate ClassGroupOk(catalog: Catalog, prefix: string, pkg: string, g: Group) {
    && ClassNamesParse(g.classes)
    && ModulesPresent(catalog, pkg, ClassMods(Elems(g.classes)))
    && MethodExclusionsValid(Leaves(ClassGroupTree(catalog, prefix, pkg, g)), Elems(g.exceptMethods))
  }

  function ClassGroupLeaves(catalog: Catalog, prefix: string, pkg: string, g: Group): set<Leaf> {
    WithoutMethods(Leaves(ClassGroupTree(catalog, prefix, pkg, g)), Elems(g.exceptMethods))
  }

  ghost predicate ClassGroupError(catalog: Catalog, prefix: string, pkg: string, g: Group, e: LoadError) {
    if !ClassNamesParse(g.classes) then
      exists n :: n in g.classes && Dots(n) != 1 && e == BadClassName(n)
    else if !ModulesPresent(catalog, pkg, ClassMods(Elems(g.classes))) then
      MissingModuleError(catalog, pkg, ClassMods(Elems(g.classes)), e)
    else
      exists n :: n in g.exceptMethods && MethodExclusionError(ClassGroupTree(catalog, prefix, pkg, g), Elems(g.exceptMethods), n, e)
  }

  lemma ClassModsStep(done: set<string>, n: string)
    requires ParseClassName(n).Success?
    ensures ClassMods(done + {n}) == ClassMods(done) + {ParseClassName(n).value.0}
  {
  }

  /** Parses every class entry and collects the modules they name. */
  method ClassModules(names: seq<string>) returns (r: Result<set<string>>)
    ensures r.Success? <==> ClassNamesParse(names)
    ensures r.Success? ==> r.value == ClassMods(Elems(names))
    ensures r.Failure? ==> exists n :: n in names && ParseClassName(n) == Failure(r.error)
  {
    var pending := Elems(names);
    ghost var done: set<string> := {};
    var mods: set<string> := {};
    while pending != {}
      invariant pending + done == Elems(names) && pending !! done
      invariant forall n :: n in done ==> Dots(n) == 1
      invariant mods == ClassMods(done)
      decreases pending
    {
      var n :| n in pending;
      var parsed :- ParseClassName(n);
      ClassModsStep(done, n);
      mods := mods + {parsed.0};
      pending := pending - {n};
      done := done + {n};
    }
    return Success(mods);
  }

  method ResolveClassGroup(catalog: Catalog, prefix: string, pkg: string, g: Group) returns (r: Result<set<string>>)
    ensures r.Success? <==> ClassGroupOk(catalog, prefix, pkg, g)
    ensures r.Success? ==> r.value == FullNames(pkg, ClassGroupLeaves(catalog, prefix, pkg, g))
    ensures r.Failure? ==> ClassGroupError(catalog, prefix, pkg, g, r.error)
  {
    var mods :- ClassModules(g.classes);
    var built :- BuildNameTree(catalog, pkg, mods, Elems(g.classes), prefix);
    var afterMethods :- ExceptMethods(built, g.exceptMethods);
    return Success(FlattenTree(pkg, afterMethods));
  }

  /** A "module.class" name splits into dot-free halves. */
  lemma ClassSpellingDotFree(m: string, c: string)
    requires Dots(Join([m, c])) == 1
    ensures DotFree(m) && DotFree(c)
    ensures ParseClassName(Join([m, c])).value == (m, c)
  {
    JoinTwo(m, c);
    assert multiset(m + "." + c) == multiset(m) + multiset(".") + multiset(c);
    assert Dots(Join([m, c])) == Dots(m) + 1 + Dots(c);
    ClassNameRoundTrip(m, c);
  }

  /** A class group selects exactly the test methods of the listed classes
      that exist; a listed class that does not exist contributes nothing. */
  lemma ClassGroupSelects(catalog: Catalog, prefix: string, pkg: string, g: Group, l: Leaf)
    requires ClassNamesParse(g.classes)
    ensures l in Leaves(ClassGroupTree(catalog, prefix, pkg, g)) <==>
              && Join([l.mod, l.cls]) in g.classes
              && FullModuleName(pkg, l.mod) in catalog
              && l.cls in catalog[FullModuleName(pkg, l.mod)]
              && l.mth in catalog[FullModuleName(pkg, l.mod)][l.cls]
              && IsTestMethod(prefix, l.mth)
  {
    var names := Elems(g.classes);
    var mods := ClassMods(names);
    BuiltTreeShape(catalog, pkg, mods, names, prefix);
    assert l in Leaves(ClassGroupTree(catalog, prefix, pkg, g)) <==> Discovered(catalog, pkg, mods, names, prefix, l);
    var n := Join([l.mod, l.cls]);
    if n in g.classes {
      assert n in names;
      ClassSpellingDotFree(l.mod, l.cls);
      assert l.mod in mods;
    } else if names == {} {
      assert mods == {};
    }
  }

  // ---------------------------------------------------------------- method granularity

  /** Every entry has exactly two dots, the condition for it to parse as "module.class.method". */
  predicate MethodNamesParse(names: seq<string>) {
    forall n :: n in names ==> Dots(n) == 2
  }

  /** Parses every method entry; reports the error of one that is malformed. */
  method CheckMethodNames(names: seq<string>) returns (err: Option<LoadError>)
    ensures err.None? <==> MethodNamesParse(names)
    ensures err.Some? ==> exists n :: n in names && ParseMethodName(n) == Failure(err.value)
  {
    var pending := Elems(names);
    ghost var done: set<string> := {};
    while pending != {}
      invariant pending + done == Elems(names) && pending !! done
      invariant forall n :: n in done ==> Dots(n) == 2
      decreases pending
    {
      var n :| n in pending;
      var parsed := ParseMethodName(n);
      if parsed.Failure? {
        return Some(parsed.error);
      }
      pending := pending - {n};
      done := done + {n};
    }
    return None;
  }

  /** The listed methods, each with the package prepended when there is one. */
  function MethodGroupNames(pkg: string, g: Group): set<string> {
    set n | n in g.methods :: JoinDot(pkg, n)
  }

  method ResolveMethodGroup(pkg: string, g: Group) returns (r: Result<set<string>>)
    ensures r.Success? <==> MethodNamesParse(g.methods)
    ensures r.Success? ==> r.value == MethodGroupNames(pkg, g)
    ensures r.Failure? ==> exists n :: n in g.methods && ParseMethodName(n) == Failure(r.error)
  {
    var err := CheckMethodNames(g.methods);
    if err.Some? {
      return Failure(err.value);
    }
    return Success(set n | n in Elems(g.methods) :: JoinDot(pkg, n));
  }

  /** A method named at method granularity gets the same full name the tree
      walk gives its leaf, so the granularities agree on names. */
  lemma MethodGranularityAgrees(pkg: string, n: string)
    requires ParseMethodName(n).Success?
    requires pkg != "" || ParseMethodName(n).value.0 != ""
    ensures var (m, c, x) := ParseMethodName(n).value;
            JoinDot(pkg, n) == FullName(pkg, Leaf(m, c, x))
  {
    var (m, c, x) := ParseMethodName(n).value;
    FullNameShape(pkg, Leaf(m, c, x));
  }

  // ---------------------------------------------------------------- groups

  /** A group resolves when it is disabled, or its granularity is known and
      its entries are valid for it. */
  predicate GroupOk(catalog: Catalog, prefix: string, pkg: string, g: Group) {
    || g.disable
    || (g.granularity == "module" && ModuleGroupOk(catalog, prefix, pkg, g))
    || (g.granularity == "class" && ClassGroupOk(catalog, prefix, pkg, g))
    || (g.granularity == "method" && MethodNamesParse(g.methods))
  }

  /** The full method names a resolving group contributes. */
  function GroupNames(catalog: Catalog, prefix: string, pkg: string, g: Group): set<string> {
    if g.disable then {}
    else if g.granularity == "module" then FullNames(pkg, ModuleGroupLeaves(catalog, prefix, pkg, g))
    else if g.granularity == "class" then FullNames(pkg, ClassGroupLeaves(catalog, prefix, pkg, g))
    else if g.granularity == "method" then MethodGroupNames(pkg, g)
    else {}
  }

  /** e is an error a failing group can raise. */
  ghost predicate GroupError(catalog: Catalog, prefix: string, pkg: string, g: Group, e: LoadError) {
    && !g.disable
    && (if g.granularity == "module" then ModuleGroupError(catalog, prefix, pkg, g, e)
        else if g.granularity == "class" then ClassGroupError(catalog, prefix, pkg, g, e)
        else if g.granularity == "method" then exists n :: n in g.methods && Dots(n) != 2 && e == BadMethodName(n)
        else e == BadGranularity(Granularities))
  }

  /** Resolves one group under the suite's package. A disabled group is
      skipped before its granularity is looked at. */
  method ResolveGroup(catalog: Catalog, prefix: string, pkg: string, g: Group) returns (r: Result<set<string>>)
    ensures r.Success? <==> GroupOk(catalog, prefix, pkg, g)
    ensures r.Success? ==> r.value == GroupNames(catalog, prefix, pkg, g)
    ensures r.Failure? ==> GroupError(catalog, prefix, pkg, g, r.error)
    ensures g.disable ==> r == Success({})
    ensures !g.disable && g.granularity !in Granularities ==> r == Failure(BadGranularity(Granularities))
  {
    if g.disable {
      return Success({});
    }
    if g.granularity == "module" {
      r := ResolveModuleGroup(catalog, prefix, pkg, g);
    } else if g.granularity == "class" {
      r := ResolveClassGroup(catalog, prefix, pkg, g);
    } else if g.granularity == "method" {
      r := ResolveMethodGroup(pkg, g);
    } else {
      r := Failure(BadGranularity(Granularities));
    }
  }

  /** Class C of module m in the scenario below: two test methods and a helper. */
  function ScenarioCatalog(): Catalog {
    map["m" := map["C" := map["test_a" := 1, "test_b" := 2, "helper" := 3]]]
  }

  function ScenarioGroup(): Group {
    Group("module", ["m"], [], [], [], ["m.C.test_b"], false)
  }

  lemma ScenarioPrefixed()
    ensures PrefixedMethods(ScenarioCatalog()["m"]["C"], DefaultMethodPrefix) == {"test_a", "test_b"}
  {
    assert "helper"[0] != DefaultMethodPrefix[0];
    assert "test_a"[..4] == DefaultMethodPrefix;
    assert "test_b"[..4] == DefaultMethodPrefix;
  }

  lemma ScenarioTree()
    ensures ModuleGroupTree(ScenarioCatalog(), DefaultMethodPrefix, "", ScenarioGroup())
            == map["m" := map["C" := {"test_a", "test_b"}]]
  {
    ScenarioPrefixed();
    assert Elems(ScenarioGroup().modules) == {"m"};
    assert FullModuleName("", "m") == "m";
    var classes := ScenarioCatalog()["m"];
    assert BranchOf(classes, classes.Keys, "m", {}, DefaultMethodPrefix) == map["C" := {"test_a", "test_b"}];
    assert "C" in BranchOf(classes, classes.Keys, "m", {}, DefaultMethodPrefix);
  }

  lemma ScenarioLeaves()
    ensures Leaves(map["m" := map["C" := {"test_a", "test_b"}]]) == {Leaf("m", "C", "test_a"), Leaf("m", "C", "test_b")}
  {
  }

  lemma ScenarioSpellings()
    ensures Join(["m", "C", "test_b"]) == "m.C.test_b"
    ensures Join(["m", "C", "test_a"]) != "m.C.test_b"
  {
    JoinThree("m", "C", "test_b");
    JoinThree("m", "C", "test_a");
    assert Join(["m", "C", "test_a"])[9] == 'a';
  }

  lemma ScenarioGroupLeaves()
    ensures ModuleGroupLeaves(ScenarioCatalog(), DefaultMethodPrefix, "", ScenarioGroup()) == {Leaf("m", "C", "test_a")}
    ensures "m.C.test_b" in MethodSpellings(Leaves(ModuleGroupTree(ScenarioCatalog(), DefaultMethodPrefix, "", ScenarioGroup())))
  {
    var g := ScenarioGroup();
    ScenarioTree();
    ScenarioLeaves();
    ScenarioSpellings();
    var t := ModuleGroupTree(ScenarioCatalog(), DefaultMethodPrefix, "", g);
    assert Elems(g.exceptClasses) == {};
    assert Elems(g.exceptMethods) == {"m.C.test_b"};
    assert DotFree("m") && DotFree("C") && DotFree("test_a") && DotFree("test_b");
    assert WithoutClasses(Leaves(t), {}) == Leaves(t);
    assert MethodExcluded({"m.C.test_b"}, Leaf("m", "C", "test_b"));
  }

  /** A module group over module m, whose class C declares test_a, test_b
      and helper, with m.C.test_b excluded, yields just m.C.test_a. */
  lemma ExcludedMethodScenario()
    ensures GroupOk(ScenarioCatalog(), DefaultMethodPrefix, "", ScenarioGroup())
    ensures GroupNames(ScenarioCatalog(), DefaultMethodPrefix, "", ScenarioGroup()) == {"m.C.test_a"}
  {
    var g := ScenarioGroup();
    ScenarioTree();
    ScenarioGroupLeaves();
    var t := ModuleGroupTree(ScenarioCatalog(), DefaultMethodPrefix, "", g);
    assert Elems(g.modules) == {"m"};
    assert Elems(g.exceptClasses) == {};
    assert Elems(g.exceptMethods) == {"m.C.test_b"};
    assert WithoutClasses(Leaves(t), {}) == Leaves(t);
    assert FullName("", Leaf("m", "C", "test_a")) == "m.C.test_a";
  }

  /** The scenario's tree: class C of module m with test_a and test_b. */
  function ScenarioTreeValue(): Tree {
    map["m" := map["C" := {"test_a", "test_b"}]]
  }

  /** On the scenario's tree, the one-entry list m.C.test_z is invalid and
      can only fail with test_z missing from C. */
  lemma MissingMethodEntry(e: LoadError)
    ensures !MethodExclusionsValid(Leaves(ScenarioTreeValue()), {"m.C.test_z"})
    ensures MethodExclusionError(ScenarioTreeValue(), {"m.C.test_z"}, "m.C.test_z", e) <==>
              e == ExcludeMethodMissing("m.C.test_z", "test_z", "C")
  {
    var t := ScenarioTreeValue();
    JoinThree("m", "C", "test_z");
    var n := Join(["m", "C", "test_z"]);
    assert n == "m.C.test_z";
    assert DotFree("m") && DotFree("C") && DotFree("test_z");
    assert HasClass(t, "m", "C") && "test_z" !in t["m"]["C"];
    SingleMethodEntryError(t, "m", "C", "test_z", e);
    MethodNameRoundTrip("m", "C", "test_z");
    MethodEntryValid(Leaves(t), n);
  }

  // ---------------------------------------------------------------- suites

  /** The names of a sequence of groups, accumulated in order. */
  function SuiteNames(catalog: Catalog, prefix: string, pkg: string, groups: seq<Group>): set<string>
    decreases |groups|
  {
    if groups == [] then {}
    else SuiteNames(catalog, prefix, pkg, groups[..|groups| - 1])
         + GroupNames(catalog, prefix, pkg, groups[|groups| - 1])
  }

  /** A suite's names are the union of its groups' names. */
  lemma {:induction false} SuiteNamesUnion(catalog: Catalog, prefix: string, pkg: string, groups: seq<Group>, n: string)
    ensures n in SuiteNames(catalog, prefix, pkg, groups) <==>
              exists i :: 0 <= i < |groups| && n in GroupNames(catalog, prefix, pkg, groups[i])
    decreases |groups|
  {
    if groups != [] {
      var init := groups[..|groups| - 1];
      SuiteNamesUnion(catalog, prefix, pkg, init, n);
      if n in SuiteNames(catalog, prefix, pkg, init) {
        var i :| 0 <= i < |init| && n in GroupNames(catalog, prefix, pkg, init[i]);
        assert groups[i] == init[i];
      }
      if exists i :: 0 <= i < |groups| && n in GroupNames(catalog, prefix, pkg, groups[i]) {
        var i :| 0 <= i < |groups| && n in GroupNames(catalog, prefix, pkg, groups[i]);
        if i < |groups| - 1 {
          assert groups[i] == init[i];
        }
      }
    }
  }

  lemma SuiteNamesStep(catalog: Catalog, prefix: string, pkg: string, groups: seq<Group>, i: int)
    requires 0 <= i < |groups|
    ensures SuiteNames(catalog, prefix, pkg, groups[..i + 1])
            == SuiteNames(catalog, prefix, pkg, groups[..i]) + GroupNames(catalog, prefix, pkg, groups[i])
  {
    assert groups[..i + 1][..i] == groups[..i];
  }

  /** Whether one group resolves, as a test on groups. */
  function GroupCheck(catalog: Catalog, prefix: string, pkg: string): Group -> bool {
    g => GroupOk(catalog, prefix, pkg, g)
  }

  /** The errors one group can raise, as a relation on groups. */
  ghost function GroupFault(catalog: Catalog, prefix: string, pkg: string): (Group, LoadError) -> bool {
    (g, e) => GroupError(catalog, prefix, pkg, g, e)
  }

  /** Every group of suite s resolves under its package. */
  predicate SuiteOk(catalog: Catalog, prefix: string, s: SuiteConf) {
    AllOk(GroupCheck(catalog, prefix, PackageName(s.package)), s.groups)
  }

  /** A suite resolves exactly when each of its groups does. */
  lemma SuiteOkEvery(catalog: Catalog, prefix: string, s: SuiteConf)
    ensures SuiteOk(catalog, prefix, s) <==>
              forall j :: 0 <= j < |s.groups| ==> GroupOk(catalog, prefix, PackageName(s.package), s.groups[j])
  {
    AllOkEvery(GroupCheck(catalog, prefix, PackageName(s.package)), s.groups);
  }

  /** What a resolving suite reports: its package label, the union of its
      groups' names, and its worker count (1 when not configured). */
  function SuiteResult(catalog: Catalog, prefix: string, s: SuiteConf): SuiteInfo {
    var pkg := PackageName(s.package);
    SuiteInfo(PackageLabel(pkg), SuiteNames(catalog, prefix, pkg, s.groups), s.maxWorkers.GetOr(1))
  }

  /** e is the error of the first group of s that fails. */
  ghost predicate SuiteError(catalog: Catalog, prefix: string, s: SuiteConf, e: LoadError) {
    var pkg := PackageName(s.package);
    FirstError(GroupCheck(catalog, prefix, pkg), GroupFault(catalog, prefix, pkg), s.groups, e)
  }

  /** Resolves the groups of one suite in order and unites their names. */
  method ParseSuite(catalog: Catalog, prefix: string, s: SuiteConf) returns (r: Result<SuiteInfo>)
    ensures r.Success? <==> SuiteOk(catalog, prefix, s)
    ensures r.Success? ==> r.value == SuiteResult(catalog, prefix, s)
    ensures r.Success? && s.maxWorkers.None? ==> r.value.maxWorkers == 1
    ensures r.Success? && PackageName(s.package) == "" ==> r.value.package == "None"
    ensures r.Failure? ==> SuiteError(catalog, prefix, s, r.error)
  {
    var pkg := PackageName(s.package);
    var names: set<string> := {};
    var i := 0;
    while i < |s.groups|
      invariant 0 <= i <= |s.groups|
      invariant AllOk(GroupCheck(catalog, prefix, pkg), s.groups[..i])
      invariant names == SuiteNames(catalog, prefix, pkg, s.groups[..i])
    {
      var g := ResolveGroup(catalog, prefix, pkg, s.groups[i]);
      if g.Failure? {
        FailureAfterSuccesses(GroupCheck(catalog, prefix, pkg), GroupFault(catalog, prefix, pkg), s.groups, i, g.error);
        return Failure(g.error);
      }
      AllOkStep(GroupCheck(catalog, prefix, pkg), s.groups, i);
      SuiteNamesStep(catalog, prefix, pkg, s.groups, i);
      names := names + g.value;
      i := i + 1;
    }
    assert s.groups[..|s.groups|] == s.groups;
    return Success(SuiteInfo(PackageLabel(pkg), names, s.maxWorkers.GetOr(1)));
  }

  // ---------------------------------------------------------------- configuration

  /** Whether a listed suite name is defined and its suite resolves. */
  function ListedCheck(catalog: Catalog, prefix: string, conf: Config): string -> bool {
    name => name in conf.suites && SuiteOk(catalog, prefix, conf.suites[name])
  }

  /** The errors a listed suite name can raise: UnknownSuite for a name
      with no definition, otherwise its suite's error. */
  ghost function ListedFault(catalog: Catalog, prefix: string, conf: Config): (string, LoadError) -> bool {
    (name, e) =>
      if name !in conf.suites then e == UnknownSuite(name)
      else SuiteError(catalog, prefix, conf.suites[name], e)
  }

  /** Every listed suite is defined and resolves, checked in list order. */
  predicate ConfigOk(catalog: Catalog, prefix: string, conf: Config) {
    AllOk(ListedCheck(catalog, prefix, conf), conf.testSuites)
  }

  /** A configuration resolves exactly when each listed suite is defined and resolves. */
  lemma ConfigOkEvery(catalog: Catalog, prefix: string, conf: Config)
    ensures ConfigOk(catalog, prefix, conf) <==>
              forall i :: 0 <= i < |conf.testSuites| ==>
                conf.testSuites[i] in conf.suites && SuiteOk(catalog, prefix, conf.suites[conf.testSuites[i]])
  {
    AllOkEvery(ListedCheck(catalog, prefix, conf), conf.testSuites);
  }

  /** e is the error of the first listed suite that is unknown or fails. */
  ghost predicate ConfigError(catalog: Catalog, prefix: string, conf: Config, e: LoadError) {
    FirstError(ListedCheck(catalog, prefix, conf), ListedFault(catalog, prefix, conf), conf.testSuites, e)
  }

  /** Every entry of res is a defined suite mapped to that suite's result. */
  predicate SuiteResults(catalog: Catalog, prefix: string, conf: Config, res: map<string, SuiteInfo>) {
    forall name :: name in res ==>
      name in conf.suites && res[name] == SuiteResult(catalog, prefix, conf.suites[name])
  }

  /** res is keyed by exactly the names, each mapped to its suite's result. */
  predicate ResultsFor(catalog: Catalog, prefix: string, conf: Config, names: seq<string>, res: map<string, SuiteInfo>) {
    res.Keys == Elems(names) && SuiteResults(catalog, prefix, conf, res)
  }

  lemma ResultsForStep(catalog: Catalog, prefix: string, conf: Config, names: seq<string>, i: int,
                       res: map<string, SuiteInfo>, info: SuiteInfo)
    requires 0 <= i < |names|
    requires ResultsFor(catalog, prefix, conf, names[..i], res)
    requires names[i] in conf.suites && info == SuiteResult(catalog, prefix, conf.suites[names[i]])
    ensures ResultsFor(catalog, prefix, conf, names[..i + 1], res[names[i] := info])
  {
    ElemsStep(names, i);
  }

  /** Looks up one listed suite and resolves it; a name with no definition
      is UnknownSuite. */
  method ParseListed(catalog: Catalog, prefix: string, conf: Config, name: string) returns (r: Result<SuiteInfo>)
    ensures r.Success? <==> name in conf.suites && SuiteOk(catalog, prefix, conf.suites[name])
    ensures r.Success? ==> name in conf.suites && r.value == SuiteResult(catalog, prefix, conf.suites[name])
    ensures r.Failure? && name !in conf.suites ==> r.error == UnknownSuite(name)
    ensures r.Failure? && name in conf.suites ==> SuiteError(catalog, prefix, conf.suites[name], r.error)
  {
    if name !in conf.suites {
      return Failure(UnknownSuite(name));
    }
    r := ParseSuite(catalog, prefix, conf.suites[name]);
  }

  /** When the suites before the i-th resolve and the i-th raises e, the
      configuration fails with e as its error. */
  lemma FirstListedFailure(catalog: Catalog, prefix: string, conf: Config, i: int, e: LoadError)
    requires 0 <= i < |conf.testSuites|
    requires AllOk(ListedCheck(catalog, prefix, conf), conf.testSuites[..i])
    requires !(conf.testSuites[i] in conf.suites && SuiteOk(catalog, prefix, conf.suites[conf.testSuites[i]]))
    requires conf.testSuites[i] !in conf.suites ==> e == UnknownSuite(conf.testSuites[i])
    requires conf.testSuites[i] in conf.suites ==> SuiteError(catalog, prefix, conf.suites[conf.testSuites[i]], e)
    ensures !ConfigOk(catalog, prefix, conf) && ConfigError(catalog, prefix, conf, e)
  {
    FailureAfterSuccesses(ListedCheck(catalog, prefix, conf), ListedFault(catalog, prefix, conf), conf.testSuites, i, e);
  }

  /** Resolves the listed suites in order into a map keyed by suite name. */
  method ParseTests(catalog: Catalog, prefix: string, conf: Config) returns (r: Result<map<string, SuiteInfo>>)
    ensures r.Success? <==> ConfigOk(catalog, prefix, conf)
    ensures r.Success? ==> r.value.Keys == Elems(conf.testSuites)
    ensures r.Success? ==> SuiteResults(catalog, prefix, conf, r.value)
    ensures r.Failure? ==> ConfigError(catalog, prefix, conf, r.error)
  {
    var res: map<string, SuiteInfo> := map[];
    var i := 0;
    while i < |conf.testSuites|
      invariant 0 <= i <= |conf.testSuites|
      invariant AllOk(ListedCheck(catalog, prefix, conf), conf.testSuites[..i])
      invariant ResultsFor(catalog, prefix, conf, conf.testSuites[..i], res)
    {
      var name := conf.testSuites[i];
      var info := ParseListed(catalog, prefix, conf, name);
      if info.Failure? {
        FirstListedFailure(catalog, prefix, conf, i, info.error);
        return Failure(info.error);
      }
      AllOkStep(ListedCheck(catalog, prefix, conf), conf.testSuites, i);
      ResultsForStep(catalog, prefix, conf, conf.testSuites, i, res, info.value);
      res := res[name := info.value];
      i := i + 1;
    }
    assert conf.testSuites[..|conf.testSuites|] == conf.testSuites;
    return Success(res);
  }
}
