# Test selection in unishark's DefaultTestLoader, in Dafny

unishark runs test suites described by a configuration. Each suite has:

- an optional package;
- a `max_workers` hint;
- named groups. Each group selects tests at one of three granularities:
  - `module`: every test method of the listed modules, minus `except_classes` and then `except_methods`;
  - `class`: every test method of the listed `module.class` names, minus `except_methods`;
  - `method`: the listed `module.class.method` names, taken as they are.

A disabled group is skipped before anything else is looked at.

The loader finds test methods in three steps:

1. It builds a name tree from static inspection of the modules. The tree maps a module to its classes, and each class to its test-method names.
2. It deletes the excluded classes and methods from the tree. An exclusion that names something absent is an error.
3. It flattens the tree depth first into `package.module.class.method` names.

This project models that selection core as pure functions and methods over values, and proves properties about it. Its modules are:

- `Outcomes`: the loader's errors, `Option`, and `Result`.
- `DottedNames`: `str.split('.')` as `Split` with its inverse `Join`, and the `module.class` / `module.class.method` parsers with their arity checks.
- `Introspection`: the static-inspection input as a catalog, and test-method selection by name prefix, sorted by declaration line.
- `NameTrees`: the tree, its leaves, the well-formedness invariant (no empty class or module), and class and method deletion with their errors and pruning.
- `TreeBuilder`: building the tree from a catalog, with the optional class filter.
- `Exclusions`: applying `except_classes` and `except_methods` lists.
- `Flattening`: the depth-first walk.
- `FirstFailures`: in-order processing that stops at the first failing item, used for the groups of a suite and the suites of a configuration.
- `Resolver`: per-group resolution, the suite-level union, and the configuration driver.

A few things are represented differently from the Python:

- **Package.** "No package" (Python `None`, or a falsy package value) is the empty string. Both the walk and the method-granularity join test the package for truthiness, so the two coincide.
- **Set iteration.** Python walks a set in an unspecified order, and the model's loops pick elements with `:|`. Whether a step succeeds, and the value it returns, are stated exactly and do not depend on the order. On failure the contract states that some listed entry fails. It bounds that entry's error by what the other listed entries can have deleted before it. A module or class present in the original tree is reported missing only when the listed entries delete all of it. For a method entry, a present class is reported missing only while its module keeps another class. A level absent from the original tree is reported as that level missing, never as something below it. Which entry's error is reported may depend on the order. The model does not prove the converse, that every allowed error is raised by some order.
- **Introspection.** Static module inspection (`pyclbr`) is replaced by a `Catalog` parameter. A catalog maps each fully-qualified module name to its classes, and each class to its methods and their declaration lines. A module missing from the catalog is `ModuleNotFound`.

Some behaviours of the code are easy to miss, and the model keeps them as written:

- `unishark/loader.py:137-148` only counts segments, so an empty segment is accepted: `"a."` parses as module `a` with class `""`.
- `unishark/loader.py:126` passes `max_workers` through without a check that it is at least 1. The model returns the configured value, or 1 when it is absent.
- In class granularity, a listed class that its module does not contain is silently ignored, and `except_classes` is not consulted (`unishark/loader.py:105-115`). Both are stated in the model (`Resolver.ClassGroupSelects`, `Resolver.ClassGroupOk`).

## Model

| member | source | states |
|---|---|---|
| DottedNames.Split | unishark/loader.py:138 | `str.split('.')`: at least one part, every part is dot-free, and joining the parts with "." gives back the input |
| DottedNames.SplitCountsDots | unishark/loader.py:138-139 | the number of parts is the number of dots plus one, which makes the arity check a dot count |
| DottedNames.SplitJoin | unishark/loader.py:138 | splitting a join of dot-free parts gives back exactly those parts |
| DottedNames.ParseClassName | unishark/loader.py:137-141 | succeeds exactly when the name has one dot, and then returns the two dot-free halves that join back to the name; otherwise the error is BadClassName for that name |
| DottedNames.ParseMethodName | unishark/loader.py:144-148 | succeeds exactly when the name has two dots, and then returns the three dot-free parts that join back to the name; otherwise the error is BadMethodName |
| DottedNames.ClassNameRoundTrip | unishark/loader.py:137-141 | parsing "m.c" for dot-free m and c gives back (m, c) |
| DottedNames.MethodNameRoundTrip | unishark/loader.py:144-148 | parsing "m.c.x" for dot-free parts gives back (m, c, x) |
| DottedNames.JoinDotInjective | unishark/loader.py:252 | joining a prefix and a dot-free name, leaving out the prefix when it is empty, determines both the prefix and the name |
| DottedNames.ClassNameInjective | unishark/loader.py:217 | two dot-free (module, class) pairs with the same long name are equal |
| DottedNames.MethodNameInjective | unishark/loader.py:229 | two dot-free triples with the same long name are equal |
| Introspection.InspectModule | unishark/loader.py:161-163 | a module is found exactly when its full name is in the catalog, and then its classes are the catalog's. Otherwise the error is ModuleNotFound naming the full name |
| Introspection.FullModuleNameSegments | unishark/loader.py:162 | the full module name has the package's segments, when there is a package, followed by the module's own, so a dotted module name stays dotted under the package |
| Introspection.MethodNamesByClass | unishark/loader.py:173-177 | returns exactly the class's methods that start with the prefix, each once, ordered by declaration line |
| NameTrees.TreeDeterminedByLeaves | unishark/loader.py:179-194 | two trees with no empty module or class and the same (module, class, method) leaves are equal |
| NameTrees.DeleteClass | unishark/loader.py:216-226 | fails exactly when the module or class is absent, with the module-missing or class-missing error naming "m.c". On success it removes exactly that class's leaves and leaves every other class and module unchanged. The module is pruned exactly when c was its only class. No module is added. A well-formed tree stays well formed |
| NameTrees.DeleteMethod | unishark/loader.py:228-243 | fails exactly when the leaf is absent, with the error for the first missing level naming "m.c.x". On success it removes exactly that leaf and leaves the other modules and classes unchanged. The class is pruned exactly when x was its only method, and the module when that class was also its only class. No module or class is added. Well-formedness is kept |
| TreeBuilder.BuiltTreeShape | unishark/loader.py:195-214 | the built tree has no empty module or class. Every class in it passes the filter and holds exactly its prefixed methods. Its leaves are exactly the test methods of the filtered classes of the listed modules |
| TreeBuilder.ModuleBranch | unishark/loader.py:202-214 | one module's branch holds each filtered class that has at least one test method, mapped to its test methods |
| TreeBuilder.BuildNameTree | unishark/loader.py:195-214 | succeeds exactly when every listed module is found (the module name is joined to the package as at loader.py:162), and then returns the tree above. Otherwise the error is ModuleNotFound for a missing module |
| Exclusions.ClassEntryValid | unishark/loader.py:150-153 | an exclusion entry is a class spelling of the tree exactly when it parses as "module.class" and names a class of the tree |
| Exclusions.MethodEntryValid | unishark/loader.py:155-158 | an entry is a method spelling of the leaves exactly when it parses as "module.class.method" and names one of them |
| Exclusions.ExcludeClass | unishark/loader.py:151-153 | one class entry: parse it, then delete the class. Succeeds exactly when the entry is valid, and then extends the excluded set by that class. Otherwise it raises the parse error, or exactly the error of deleting that class from the current tree, which is allowed by the bound of the whole list |
| Exclusions.ExcludeMethod | unishark/loader.py:156-158 | one method entry: parse it, then delete the method, with the same guarantees. A module or class missing from the current tree but present in the original has had all its methods deleted by earlier entries |
| Exclusions.ExceptClasses | unishark/loader.py:150-153 | deduplicates the list, then succeeds exactly when every entry is valid for the original tree, whatever the order. The remaining leaves are those outside the listed classes. For a well-formed tree the result is exactly the tree with those classes removed and emptied modules pruned. No module is added. A failure carries the error of some listed entry. A missing class is reported only when its module is in the original tree. A missing module is reported only when it is absent from the original tree or every class of it is listed |
| Exclusions.ExceptMethods | unishark/loader.py:155-158 | the same for method entries: the remaining leaves are those not listed. A failure reports a missing module only when it is absent from the original tree or every method of it is listed. A missing class is reported only when its module is in the original tree, and either the class is absent or every method of it is listed while the module has another class. A missing method is reported only when its class is in the original tree |
| Exclusions.ClassesRemoved | unishark/loader.py:221-226 | the tree left by class exclusions has exactly the leaves outside the listed classes, and is well formed when the original is |
| Exclusions.AbsentModuleClassError | unishark/loader.py:216-222 | a class exclusion whose module is not in the tree can fail with the module-missing error and with nothing else |
| Exclusions.PresentModuleClassError | unishark/loader.py:216-222 | a class exclusion whose module is in the tree but whose class is not fails with the class-missing error and nothing else, unless the listed entries delete every class of that module |
| Exclusions.AbsentClassMethodError | unishark/loader.py:228-237 | a method exclusion whose class is not in the tree can fail with the module-missing error when the module is absent or every method of it is listed, or with the class-missing error when the module is in the tree, and with nothing else: never the method-missing error |
| Exclusions.DuplicateClassExclusion | unishark/loader.py:151 | a valid class entry listed twice is accepted, because the list becomes a set first. Deleting that class a second time would fail |
| Exclusions.DuplicateMethodExclusion | unishark/loader.py:156 | the same for a method entry listed twice |
| Exclusions.ExcludedClassBlocksMethodExclusion | unishark/loader.py:100-103 | because class exclusions are applied first, a method exclusion inside an excluded class finds nothing to delete and is invalid |
| Exclusions.PresentClassMethodError | unishark/loader.py:228-237 | a method exclusion whose class is in the tree but whose method is not fails with the method-missing error and nothing else, unless the listed entries delete every method of that class |
| Exclusions.SingleMethodEntryError | unishark/loader.py:155-158 | a one-entry method list naming a missing method of a present class fails with exactly the method-missing error |
| Exclusions.ExcludedClassMethodError | unishark/loader.py:228-237 | a one-entry method list naming a method of an excluded class, in a module that keeps another class, fails with exactly the class-missing error |
| Resolver.MissingMethodEntry | unishark/loader.py:236-237 | on the tree with class C of module m holding test_a and test_b, the entry m.C.test_z is invalid and can only fail with test_z missing from C |
| Flattening.FlattenTree | unishark/loader.py:245-256 | the depth-first walk yields exactly the full name of every leaf of the tree |
| Flattening.FullNameShape | unishark/loader.py:250-256 | a leaf's name is "pkg.mod.cls.mth", or "mod.cls.mth" without a package |
| Flattening.FullNameInjective | unishark/loader.py:252 | leaves whose class and method names are dot-free get distinct full names, for any package and any module name, dotted or empty |
| Flattening.FlattenOnePerLeaf | unishark/loader.py:245-256 | when class and method names are dot-free, as Python identifiers are, the walk yields exactly one distinct name per leaf |
| Resolver.PackageLabel | unishark/loader.py:128 | the reported package is never empty: it is the package, or "None" when there is none |
| Resolver.ResolveModuleGroup | unishark/loader.py:96-104 | succeeds exactly when every module is found, every excluded class exists, and every excluded method exists once those classes are gone. The names are then the full names of the remaining test methods. A failure carries an error of the first stage that fails |
| Resolver.ClassModules | unishark/loader.py:106-111 | succeeds exactly when every class entry parses, and then returns the set of modules they name; otherwise the error is a malformed entry's |
| Resolver.ResolveClassGroup | unishark/loader.py:105-115 | succeeds exactly when the class entries parse, their modules are found and the excluded methods exist. The names are then the full names of the listed classes' test methods outside the excluded ones |
| Resolver.ClassGroupSelects | unishark/loader.py:105-112 | a class group's tree holds exactly the test methods of the listed classes that exist. A listed class that does not exist contributes nothing |
| Resolver.CheckMethodNames | unishark/loader.py:118-120 | passes exactly when every method entry has three segments; otherwise it reports a malformed entry's error |
| Resolver.ResolveMethodGroup | unishark/loader.py:116-123 | succeeds exactly when every entry has three segments, and then returns the entries with the package prepended when there is one |
| Resolver.MethodGranularityAgrees | unishark/loader.py:121-122 | a method named at method granularity gets the same full name the tree walk gives that method's leaf |
| Resolver.ResolveGroup | unishark/loader.py:91-125 | a disabled group gives no names without a look at its granularity. An unknown granularity fails with BadGranularity listing the three legal values. Otherwise the result is that granularity's |
| Resolver.ExcludedMethodScenario | unishark/loader.py:96-104 | a module group over a class with test_a, test_b and helper, with m.C.test_b excluded, yields exactly {"m.C.test_a"} |
| Resolver.SuiteNamesUnion | unishark/loader.py:90-129 | a suite's names are exactly the union of its groups' names |
| FirstFailures.AllOkEvery | unishark/loader.py:84-125 | processing a sequence in order succeeds exactly when every item succeeds |
| FirstFailures.FirstErrorIsFirst | unishark/loader.py:84-125 | the error raised by in-order processing is one that the first failing item can raise, and every item before that one succeeds |
| Resolver.SuiteOkEvery | unishark/loader.py:91-125 | a suite resolves exactly when each of its groups resolves under the suite's package |
| Resolver.ParseSuite | unishark/loader.py:84-131 | resolves the groups in order and succeeds exactly when every group resolves; otherwise the error is that of the first failing group. The result has the package label, the union of the group names, and the configured worker count, 1 when absent |
| Resolver.ParseListed | unishark/loader.py:84-85 | a listed suite name with no definition fails with UnknownSuite. Otherwise the result is that suite's resolution |
| Resolver.ConfigOkEvery | unishark/loader.py:84-131 | a configuration resolves exactly when every listed suite is defined and resolves |
| Resolver.FirstListedFailure | unishark/loader.py:84-85 | when the suites listed before the i-th resolve and the i-th is unknown or fails with e, the configuration fails with e |
| Resolver.ParseTests | unishark/loader.py:80-134 | succeeds exactly when every listed suite is defined and resolves. The result is keyed by exactly the listed suite names, each with its suite's result. Otherwise the error is that of the first listed suite that is unknown or fails |

## Left out

- Loading cases from full names (`_make_case_from_full_name`, `load_tests_from_full_names`, `load_test_from_dict`): these import modules and instantiate classes at run time, which is outside a value model.
- `_inspect_module` and `_get_classes_of_module`: reading source files with `pyclbr` is replaced by the `Catalog` parameter. Only the full module name they look up is modelled (`Introspection.InspectModule`). A catalog holds only classes, so the filtering of non-class entries is implicit.
- Logging (`log.debug`, `log.info`), including the warning about an empty suite.
- `int(suite['max_workers'])`: the configured value is taken as an integer, so a non-numeric string raising `ValueError` is not modelled.
- A `KeyError` for a missing required key (`test`, `suites`, `granularity`, `modules`, `classes`, `methods`, `groups`): the configuration is a typed record. An omitted `except_classes` or `except_methods` list is an empty list, which the code treats the same way. The one `KeyError` kept is a listed suite with no definition, reported as `UnknownSuite`.
- The order of dictionary and set iteration: group order is taken to be the configuration's order, as in Python 3.7+ dictionaries. Set order is unspecified, as described above.
- Introspection.MethodNamesByClass: states that the result is ordered by declaration line, but not how the stable sort orders methods declared on the same line.
- Resolver.ResolveGroup: on failure it states a set of errors that contains every error the group can raise. Which one is raised depends on set iteration order in the code, so the model does not fix it. The model does not prove that each error in the set is raised by some order.
- Resolver.ParseSuite: states the returned record, but not the list-then-set conversion of the names. Only the resulting set is observable.
