/**
 Static module introspection, taken as an input: a catalog from each
 fully-qualified module name to its classes, and from each class to its
 methods with the line each is declared on. Selection of a class's test
 methods by name prefix and declaration order.
 */
module Introspection {
  import opened Outcomes
  import opened DottedNames

  /** Method name to declaration line, as static inspection reports it. */
  type MethodLines = map<string, int>

  /** Class name to its methods, for one module. */
  type ModuleClasses = map<string, MethodLines>

  /** Fully-qualified module name to its classes. */
  type Catalog = map<string, ModuleClasses>

  /** The loader's default test-method prefix. */
  const DefaultMethodPrefix: string := "test"

  /** "pkg.mod", or just "mod" when there is no package. */
  function FullModuleName(pkg: string, mod: string): string {
    JoinDot(pkg, mod)
  }

  /** The name a module is looked up under has the package's segments, when
      there is a package, followed by the module's own: a dotted module name
      such as "sub.test_x" stays dotted under the package. */
  lemma FullModuleNameSegments(pkg: string, mod: string)
    ensures Split(FullModuleName(pkg, mod)) == (if pkg == "" then Split(mod) else Split(pkg) + Split(mod))
  {
    if pkg != "" {
      SplitDotJoin(pkg, mod);
    }
  }

  /** Looks a module up by its fully-qualified name; an unknown module is an
      import failure. */
  function InspectModule(catalog: Catalog, pkg: string, mod: string): (r: Result<ModuleClasses>)
    ensures r.Success? <==> FullModuleName(pkg, mod) in catalog
    ensures r.Success? ==> r.value == catalog[FullModuleName(pkg, mod)]
    ensures r.Failure? ==> r.error == ModuleNotFound(FullModuleName(pkg, mod))
  {
    var full := FullModuleName(pkg, mod);
    if full in catalog then Success(catalog[full]) else Failure(ModuleNotFound(full))
  }

  predicate IsTestMethod(prefix: string, name: string) {
    prefix <= name
  }

  /** The methods of a class whose names start with the prefix. */
  function PrefixedMethods(methods: MethodLines, prefix: string): set<string> {
    set n | n in methods && IsTestMethod(prefix, n)
  }

  /** Among finitely many methods there is one declared no later than any other. */
  lemma {:induction false} EarliestMethodExists(methods: MethodLines, pending: set<string>)
    requires pending != {}
    requires pending <= methods.Keys
    ensures exists k :: k in pending && forall p :: p in pending ==> methods[k] <= methods[p]
    decreases pending
  {
    var x :| x in pending;
    if pending != {x} {
      var rest := pending - {x};
      EarliestMethodExists(methods, rest);
      var k :| k in rest && forall p :: p in rest ==> methods[k] <= methods[p];
      if methods[x] <= methods[k] {
        assert forall p :: p in pending ==> methods[x] <= methods[p];
      } else {
        assert forall p :: p in pending ==> methods[k] <= methods[p];
      }
    }
  }

  /** The test methods of a class, each once, in order of declaration line. */
  method MethodNamesByClass(methods: MethodLines, prefix: string) returns (names: seq<string>)
    ensures forall n :: n in names <==> n in methods && IsTestMethod(prefix, n)
    ensures forall i, j :: 0 <= i < j < |names| ==> names[i] != names[j]
    ensures forall i, j :: 0 <= i < j < |names| ==> methods[names[i]] <= methods[names[j]]
  {
    var pending := PrefixedMethods(methods, prefix);
    names := [];
    while pending != {}
      invariant forall n :: n in names || n in pending <==> n in methods && IsTestMethod(prefix, n)
      invariant forall n :: n in names ==> n !in pending
      invariant forall i, j :: 0 <= i < j < |names| ==> names[i] != names[j]
      invariant forall i, j :: 0 <= i < j < |names| ==> methods[names[i]] <= methods[names[j]]
      invariant forall i, p :: 0 <= i < |names| && p in pending ==> methods[names[i]] <= methods[p]
      decreases pending
    {
      EarliestMethodExists(methods, pending);
      var k :| k in pending && forall p :: p in pending ==> methods[k] <= methods[p];
      names := names + [k];
      pending := pending - {k};
    }
  }
}
